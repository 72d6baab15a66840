/**
 * What the rules in BoardRules promise: counting and evaluation bounds,
 * the block bookkeeping, the simple-move generator, the tests `legalMove`
 * makes, the effect of `makeMove`, and the search-only make/undo pair.
 */
module RulesFacts {
  import opened Wrappers
  import opened PieceColor
  import opened Squares
  import opened Tables
  import opened BoardRules
  import opened JumpChains

  // ---------------------------------------------------------------------
  // Counting

  /** Every square holds exactly one of the three values. */
  lemma {:induction false} CountPartition(s: seq<Piece>)
    ensures Count(s, White) + Count(s, Black) + Count(s, Empty) == |s|
  {
    if s != [] {
      CountPartition(s[..|s| - 1]);
    }
  }

  /** `staticScore` lies between -25 and 25. */
  lemma StaticScoreBounds(c: Cells)
    ensures -25 <= StaticScore(c) <= 25
    ensures StaticScore(c) == 25 ==> Count(c, Black) == 0
    ensures StaticScore(c) == -25 ==> Count(c, White) == 0
  {
    CountPartition(c);
  }

  /** A count is positive exactly when some square holds the piece. */
  lemma {:induction false} CountPositive(s: seq<Piece>, p: Piece)
    ensures Count(s, p) > 0 <==> exists i :: 0 <= i < |s| && s[i] == p
  {
    if s != [] {
      var n := |s| - 1;
      CountPositive(s[..n], p);
      if exists i :: 0 <= i < n && s[..n][i] == p {
        var i :| 0 <= i < n && s[..n][i] == p;
        assert s[i] == p;
      }
      if exists i :: 0 <= i < |s| && s[i] == p {
        var i :| 0 <= i < |s| && s[i] == p;
        if i < n {
          assert s[..n][i] == p;
        }
      }
    }
  }

  // ---------------------------------------------------------------------
  // Blocks

  /** `blocks(k)` lists the destinations of exactly the entries keyed K. */
  lemma {:induction false} BlocksOfMembership(bs: seq<Block>, k: Square, x: Square)
    ensures x in BlocksOf(bs, k) <==> Block(k, x) in bs
  {
    if bs != [] {
      var n := |bs| - 1;
      BlocksOfMembership(bs[..n], k, x);
      assert bs == bs[..n] + [bs[n]];
    }
  }

  /** `updateBlocks` keeps the length and the destinations and changes only keys equal to PREV. */
  lemma RekeyShape(bs: seq<Block>, prev: Square, curr: Square)
    ensures |Rekey(bs, prev, curr)| == |bs|
    ensures forall i :: 0 <= i < |bs| ==>
      Rekey(bs, prev, curr)[i].dest == bs[i].dest
      && Rekey(bs, prev, curr)[i].key == (if bs[i].key == prev then curr else bs[i].key)
  {
  }

  /**
   * After `updateBlocks(prev, curr)` the square CURR carries the blocks of
   * both PREV and CURR, PREV carries none, and other squares keep theirs.
   */
  lemma RekeyBlocks(bs: seq<Block>, prev: Square, curr: Square, k: Square, x: Square)
    requires prev != curr
    ensures x in BlocksOf(Rekey(bs, prev, curr), k)
        <==> if k == curr then Block(prev, x) in bs || Block(curr, x) in bs
             else k != prev && Block(k, x) in bs
  {
    var r := Rekey(bs, prev, curr);
    BlocksOfMembership(r, k, x);
    if Block(k, x) in r {
      var i :| 0 <= i < |r| && r[i] == Block(k, x);
      assert bs[i] in bs;
    }
    if k == curr && Block(prev, x) in bs {
      var i :| 0 <= i < |bs| && bs[i] == Block(prev, x);
      assert r[i] == Block(k, x);
    }
    if k != prev && Block(k, x) in bs {
      var i :| 0 <= i < |bs| && bs[i] == Block(k, x);
      assert r[i] == Block(k, x);
    }
  }

  /** `clearHorizontalBlocks(k)` removes exactly the entries keyed K. */
  lemma {:induction false} WithoutKeyMembership(bs: seq<Block>, k: Square, b: Block)
    ensures b in WithoutKey(bs, k) <==> b in bs && b.key != k
  {
    if bs != [] {
      var n := |bs| - 1;
      WithoutKeyMembership(bs[..n], k, b);
      assert bs == bs[..n] + [bs[n]];
    }
  }

  /** Clearing a key twice is clearing it once, and leaves no block keyed K. */
  lemma {:induction false} WithoutKeyIdempotent(bs: seq<Block>, k: Square)
    ensures WithoutKey(WithoutKey(bs, k), k) == WithoutKey(bs, k)
    ensures BlocksOf(WithoutKey(bs, k), k) == []
  {
    if bs != [] {
      var n := |bs| - 1;
      WithoutKeyIdempotent(bs[..n], k);
      var w := WithoutKey(bs[..n], k);
      if bs[n].key != k {
        var s := w + [bs[n]];
        assert WithoutKey(bs, k) == s;
        assert s[..|s| - 1] == w && s[|s| - 1] == bs[n];
      } else {
        assert WithoutKey(bs, k) == w;
      }
    }
  }

  // ---------------------------------------------------------------------
  // Partial jumps

  /** `undoPartialJump` inverts `partialJump` when the jump was available to a piece on FROM. */
  lemma UndoPartialJumpInverts(c: Cells, mover: Color, from: Square, to: Square)
    requires c[from] == mover && JumpSegment(c, mover, from, to)
    ensures UndoPartialJump(PartialJump(c, mover, from, to), mover, from, to) == c
  {
    JumpGeometry(from, to);
    var j := JumpedIndex(from, to);
    var u := UndoPartialJump(PartialJump(c, mover, from, to), mover, from, to);
    forall k | 0 <= k < 25
      ensures u[k] == c[k]
    {
    }
  }

  // ---------------------------------------------------------------------
  // Simple moves

  lemma {:induction false} StepsFromChar(c: Cells, mover: Color, bs: seq<Block>, k: Square, ts: seq<Square>, m: Move)
    ensures m in StepsFrom(c, mover, bs, k, ts)
        <==> |m| == 2 && From(m) == k && To(m) in ts && StepAllowed(c, mover, bs, k, To(m))
  {
    if ts != [] {
      var n := |ts| - 1;
      StepsFromChar(c, mover, bs, k, ts[..n], m);
      assert ts == ts[..n] + [ts[n]];
      assert |m| == 2 && From(m) == k ==> m == [k, To(m)];
    }
  }

  lemma {:induction false} NonJumpsUpToChar(c: Cells, mover: Color, bs: seq<Block>, n: nat, m: Move)
    requires n <= 25
    ensures m in NonJumpsUpTo(c, mover, bs, n)
        <==> |m| == 2 && From(m) < n && c[From(m)] == mover
             && To(m) in Targets(mover, From(m)) && StepAllowed(c, mover, bs, From(m), To(m))
  {
    if n > 0 {
      NonJumpsUpToChar(c, mover, bs, n - 1, m);
      if c[n - 1] == mover {
        StepsFromChar(c, mover, bs, n - 1, Targets(mover, n - 1), m);
      }
    }
  }

  /**
   * `getNonJumps()` yields exactly the two-square moves of a piece of the
   * side to move to a square of its table that is empty, not blocked, not
   * on an earlier row, and not from its last row.
   */
  lemma NonJumpsChar(c: Cells, mover: Color, bs: seq<Block>, m: Move)
    ensures m in NonJumps(c, mover, bs)
        <==> |m| == 2 && c[From(m)] == mover && InStepTable(mover, From(m), To(m))
             && To(m) !in BlocksOf(bs, From(m)) && c[To(m)] == Empty
             && (if mover == White then From(m) / SIDE != 4 && To(m) / SIDE >= From(m) / SIDE
                 else From(m) / SIDE != 0 && To(m) / SIDE <= From(m) / SIDE)
  {
    NonJumpsUpToChar(c, mover, bs, 25, m);
  }

  /**
   * The backward step 10-6 in White's table: `legalMove` accepts it, and
   * `getNonJumps()` never offers it.
   */
  lemma BackwardStepFromTen(p: Position)
    requires p.whoseMove == White && p.cells[10] == White && p.cells[6] == Empty
    requires !JumpPossible(p.cells, White)
    ensures LegalMove(p, [10, 6])
    ensures [10, 6] !in NonJumps(p.cells, White, p.blocks)
  {
    assert WhiteMoveTo[10] == [6, 11, 15, 16];
    NonJumpsChar(p.cells, White, p.blocks, [10, 6]);
  }

  // ---------------------------------------------------------------------
  // legalMove

  /** A generated simple move passes `legalMove`. */
  lemma NonJumpsLegal(p: Position, m: Move)
    requires !JumpPossible(p.cells, p.whoseMove)
    requires m in NonJumps(p.cells, p.whoseMove, p.blocks)
    ensures LegalMove(p, m)
  {
    NonJumpsChar(p.cells, p.whoseMove, p.blocks, m);
    StepGeometry(From(m), To(m));
  }

  /**
   * A generated single jump passes `legalMove` unless it is a lateral jump
   * onto a square the piece is blocked from: `getJumps` ignores blocks.
   */
  lemma SingleJumpsLegal(p: Position, m: Move)
    requires m in NonMoves(p.cells, p.whoseMove) && |m| == 2
    ensures LegalMove(p, m) <==> !(IsLateral(m) && To(m) in BlocksOf(p.blocks, From(m)))
  {
    NonMovesChar(p.cells, p.whoseMove, m);
    ValidChainIsJump(p.cells, p.whoseMove, m);
    JumpGeometry(From(m), To(m));
  }

  /**
   * What `legalMove` demands: a jump whenever one is possible, no lateral
   * step onto a blocked square, an empty destination and an origin of
   * the side to move.
   */
  lemma LegalMoveRequirements(p: Position, m: Move)
    requires LegalMove(p, m)
    ensures JumpPossible(p.cells, p.whoseMove) ==> IsJump(m)
    ensures IsLateral(m) ==> To(m) !in BlocksOf(p.blocks, From(m))
    ensures p.cells[To(m)] == Empty && p.cells[From(m)] == p.whoseMove
    ensures !IsJump(m) ==> InStepTable(p.whoseMove, From(m), To(m))
  {
  }

  /** Legality is the setup test plus the capture and block rules. */
  lemma LegalMoveIsSetupPlusRules(p: Position, m: Move)
    ensures LegalMove(p, m)
        <==> LegalSetupMove(p, m)
             && (JumpPossible(p.cells, p.whoseMove) ==> IsJump(m))
             && !(IsLateral(m) && To(m) in BlocksOf(p.blocks, From(m)))
  {
  }

  /** `checkJumpRecursive` checks each remaining segment against the same cells. */
  lemma {:induction false} CheckJumpRecursiveSegments(c: Cells, mover: Color, m: Move)
    requires CheckJumpRecursive(c, mover, Some(m))
    ensures forall i :: 0 <= i < |m| - 1 ==> JumpSegment(c, mover, m[i], m[i + 1])
    decreases |m|
  {
    if |m| > 2 {
      CheckJumpRecursiveSegments(c, mover, m[1..]);
      assert forall i :: 1 <= i < |m| - 1 ==> m[i] == m[1..][i - 1];
    }
  }

  /**
   * A legal jump: every segment is available on the board as it stands,
   * so every landing is empty now and no landing is the origin.
   */
  lemma LegalJumpSegments(p: Position, m: Move)
    requires LegalMove(p, m) && IsJump(m)
    ensures forall i :: 0 <= i < |m| - 1 ==> JumpSegment(p.cells, p.whoseMove, m[i], m[i + 1])
    ensures forall i :: 1 <= i < |m| ==> p.cells[m[i]] == Empty && m[i] != From(m)
  {
    var c, mover := p.cells, p.whoseMove;
    if |m| > 2 {
      CheckJumpRecursiveSegments(c, mover, m[1..]);
      assert forall i :: 1 <= i < |m| - 1 ==> m[i] == m[1..][i - 1];
    }
    forall i | 1 <= i < |m|
      ensures c[m[i]] == Empty
    {
      assert JumpSegment(c, mover, m[i - 1], m[i]);
    }
  }

  /** A legal jump never lands on its own origin. */
  lemma LegalJumpLandings(p: Position, m: Move)
    requires IsJump(m)
    ensures LegalMove(p, m) ==> forall i :: 1 <= i < |m| ==> m[i] != From(m)
  {
    if LegalMove(p, m) {
      LegalJumpSegments(p, m);
    }
  }

  /**
   * A chain that lands back on its origin is generated by `getJumps` when
   * valid, yet `legalMove` refuses it.
   */
  lemma ReturningChainsIllegal(p: Position, m: Move)
    requires IsJump(m) && |m| > 2 && Last(m) == From(m)
    ensures !LegalMove(p, m)
  {
    LegalJumpLandings(p, m);
    assert m[|m| - 1] == From(m);
  }

  /**
   * Because every segment is checked on the board as it was, `legalMove`
   * also accepts a chain that jumps the same piece twice: with White on
   * a1 and Black on b2 and b3, a1-c3-a3-c1 passes over b2, b3 and b2
   * again.
   */
  lemma RepeatedCaptureLegal(p: Position)
    requires p.whoseMove == White && p.cells[0] == White
    requires p.cells[6] == Black && p.cells[11] == Black
    requires p.cells[12] == Empty && p.cells[10] == Empty && p.cells[2] == Empty
    ensures LegalMove(p, [0, 12, 10, 2])
    ensures JumpedSquares([0, 12, 10, 2]) == [6, 11, 6]
  {
    var m: Move := [0, 12, 10, 2];
    assert JumpTo[0] == [2, 10, 12] && JumpTo[12][3] == 10 && JumpTo[10][1] == 2;
    assert JumpSegment(p.cells, White, 0, 12);
    assert JumpTail(m) == Some([12, 10, 2]) && JumpTail([12, 10, 2]) == Some([10, 2]);
  }

  /** `getMoves()` never offers that chain: b2 is empty by its third jump. */
  lemma RepeatedCaptureNotGenerated(p: Position)
    requires p.whoseMove == White && p.cells[0] == White
    requires p.cells[6] == Black && p.cells[11] == Black
    requires p.cells[12] == Empty && p.cells[10] == Empty && p.cells[2] == Empty
    ensures [0, 12, 10, 2] !in Moves(p)
  {
    var m: Move := [0, 12, 10, 2];
    assert JumpTo[0] == [2, 10, 12] && JumpTo[12][3] == 10;
    assert m[1..][1..] == [10, 2];
    var c1 := PartialJump(p.cells, White, 0, 12);
    var c2 := PartialJump(c1, White, 12, 10);
    assert c2[6] == Empty;
    assert !JumpSegment(c2, White, 10, 2);
    assert !ValidChain(p.cells, White, m);
    NonMovesChar(p.cells, White, m);
    NonJumpsChar(p.cells, White, p.blocks, m);
  }

  // ---------------------------------------------------------------------
  // makeMove

  /** Every segment of M is a table jump. */
  predicate TableJumps(m: Move)
  {
    forall i :: 0 <= i < |m| - 1 ==> m[i + 1] in JumpTo[m[i]]
  }

  lemma TableJumpsTail(m: Move)
    requires |m| > 2 && TableJumps(m)
    ensures TableJumps(m[1..])
  {
    var t := m[1..];
    forall i | 0 <= i < |t| - 1
      ensures t[i + 1] in JumpTo[t[i]]
    {
      assert t[i] == m[i + 1] && t[i + 1] == m[i + 2];
    }
  }

  /** One segment of `makeJumpTail`: the landing gets MOVER, origin and jumped square are emptied. */
  lemma SegmentUpdate(c: Cells, mover: Color, from: Square, to: Square, k: Square)
    requires to in JumpTo[from]
    ensures c[to := mover][from := Empty][JumpedIndex(from, to) := Empty][k]
      == (if k == to then mover
          else if k == from || k == JumpedIndex(from, to) then Empty
          else c[k])
  {
    JumpGeometry(from, to);
  }

  /**
   * `makeJumpTail` on table jumps: the last landing holds MOVER, every
   * other square of the chain and every jumped square is empty, and
   * nothing else changes.
   */
  lemma {:induction false} MakeJumpTailEffect(c: Cells, mover: Color, m: Move, k: Square)
    requires TableJumps(m)
    ensures MakeJumpTail(c, mover, m)[k]
      == (if k == Last(m) then mover
          else if k in m || k in JumpedSquares(m) then Empty
          else c[k])
    decreases |m|
  {
    var j := JumpedIndex(From(m), To(m));
    var c1 := c[To(m) := mover][From(m) := Empty][j := Empty];
    SegmentUpdate(c, mover, From(m), To(m), k);
    if |m| > 2 {
      var t := m[1..];
      TableJumpsTail(m);
      MakeJumpTailEffect(c1, mover, t, k);
      assert MakeJumpTail(c, mover, m) == MakeJumpTail(c1, mover, t);
      assert m == [m[0]] + t;
      assert k in m <==> k == m[0] || k in t;
      assert JumpedSquares(m) == [j] + JumpedSquares(t);
    } else {
      assert MakeJumpTail(c, mover, m) == c1;
      assert m == [m[0], m[1]];
    }
  }

  /** Every segment of a legal jump is an entry of the `jumpTo` table. */
  lemma LegalJumpInTable(p: Position, m: Move)
    requires LegalMove(p, m) && IsJump(m)
    ensures TableJumps(m)
  {
    LegalJumpSegments(p, m);
    forall i | 0 <= i < |m| - 1
      ensures m[i + 1] in JumpTo[m[i]]
    {
      assert JumpSegment(p.cells, p.whoseMove, m[i], m[i + 1]);
    }
  }

  /**
   * `makeMove` of a legal jump: its last landing holds the mover, its
   * origin and every square it jumps over are empty, and no other square
   * changes; the turn passes and `gameOver` is unchanged.
   */
  lemma MakeMoveJumpEffect(p: Position, m: Move, k: Square)
    requires LegalMove(p, m) && IsJump(m)
    ensures MakeMove(p, m).whoseMove == Opposite(p.whoseMove)
    ensures MakeMove(p, m).gameOver == p.gameOver
    ensures MakeMove(p, m).cells[k]
      == (if k == Last(m) then p.whoseMove
          else if k == From(m) || k in JumpedSquares(m) then Empty
          else p.cells[k])
  {
    LegalJumpSegments(p, m);
    var c, mover := p.cells, p.whoseMove;
    JumpGeometry(From(m), To(m));
    var j := JumpedIndex(From(m), To(m));
    var c2 := c[From(m) := Empty][To(m) := mover][j := Empty];
    var q := MakeMove(p, m);
    if |m| == 2 {
      assert q.cells == c2;
    } else {
      var t := m[1..];
      LegalJumpInTable(p, m);
      TableJumpsTail(m);
      assert q.cells == MakeJumpTail(c2, mover, t);
      MakeJumpTailEffect(c2, mover, t, k);
      assert m == [m[0]] + t;
      assert JumpedSquares(m) == [j] + JumpedSquares(t);
      if k in t && k != Last(m) {
        var i :| 0 <= i < |t| && t[i] == k;
        assert m[i + 1] == k;
      }
    }
  }

  /**
   * `makeMove` of a two-square step: the piece moves from origin to
   * destination, no other square changes, and the turn passes.
   */
  lemma MakeMoveStepEffect(p: Position, m: Move)
    requires |m| == 2 && !IsJump(m) && From(m) != To(m)
    ensures var q := MakeMove(p, m);
      q.whoseMove == Opposite(p.whoseMove) && q.gameOver == p.gameOver
      && q.cells[From(m)] == Empty && q.cells[To(m)] == p.whoseMove
      && forall k: Square :: k != From(m) && k != To(m) ==> q.cells[k] == p.cells[k]
  {
  }

  /**
   * For a step, `legalMove` reads only the first segment: a step carrying
   * a tail is legal exactly when its first segment is, and `makeMove` then
   * plays the tail after that segment as `makeJumpTail` does.
   */
  lemma LegalStepIgnoresTail(p: Position, m: Move)
    requires !IsJump(m) && |m| > 2
    ensures LegalMove(p, m) == LegalMove(p, m[..2])
    ensures MakeMove(p, m).cells == MakeJumpTail(MakeMove(p, m[..2]).cells, p.whoseMove, m[1..])
    ensures MakeMove(p, m).whoseMove == MakeMove(p, m[..2]).whoseMove
  {
  }

  /** A legal single jump captures one opponent piece and keeps the mover's count. */
  lemma LegalSingleJumpCaptures(p: Position, m: Move)
    requires LegalMove(p, m) && IsJump(m) && |m| == 2
    ensures Count(MakeMove(p, m).cells, Opposite(p.whoseMove)) == Count(p.cells, Opposite(p.whoseMove)) - 1
    ensures Count(MakeMove(p, m).cells, p.whoseMove) == Count(p.cells, p.whoseMove)
  {
    var c, mover := p.cells, p.whoseMove;
    JumpGeometry(From(m), To(m));
    var j := JumpedIndex(From(m), To(m));
    var c1 := c[From(m) := Empty];
    var c2 := c1[To(m) := mover];
    assert MakeMove(p, m).cells == c2[j := Empty];
    CountUpdate(c, From(m), Empty, Opposite(mover));
    CountUpdate(c1, To(m), mover, Opposite(mover));
    CountUpdate(c2, j, Empty, Opposite(mover));
    CountUpdate(c, From(m), Empty, mover);
    CountUpdate(c1, To(m), mover, mover);
    CountUpdate(c2, j, Empty, mover);
  }

  /**
   * Block bookkeeping of a `makeMove` step: the blocks of the moved piece
   * travel with it to the destination, the origin keeps none, every other
   * square keeps its own, and after a lateral step the piece may also not
   * step straight back.
   */
  lemma MakeMoveStepBlocks(p: Position, m: Move, k: Square, x: Square)
    requires !IsJump(m) && From(m) != To(m)
    ensures IsLateral(m) ==> From(m) in BlocksOf(MakeMove(p, m).blocks, To(m))
    ensures x in BlocksOf(MakeMove(p, m).blocks, k) <==>
      (if k == To(m) then Block(From(m), x) in p.blocks || Block(To(m), x) in p.blocks || (IsLateral(m) && x == From(m))
       else k != From(m) && Block(k, x) in p.blocks)
  {
    var from, to := From(m), To(m);
    var bs1 := if IsLateral(m) then p.blocks + [Block(to, from)] else p.blocks;
    var q := MakeMove(p, m);
    assert q.blocks == Rekey(bs1, from, to);
    RekeyBlocks(bs1, from, to, k, x);
    if IsLateral(m) {
      RekeyBlocks(bs1, from, to, to, from);
      assert bs1[|bs1| - 1] == Block(to, from);
      BlocksOfMembership(q.blocks, to, from);
    }
  }

  /**
   * A jump removes exactly the blocks keyed on its origin (after the one
   * a lateral jump records), leaving none there.
   */
  lemma MakeMoveJumpBlocks(p: Position, m: Move, b: Block)
    requires IsJump(m) && From(m) != To(m)
    ensures b in MakeMove(p, m).blocks
        <==> (b in p.blocks && b.key != From(m)) || (IsLateral(m) && b == Block(To(m), From(m)))
    ensures BlocksOf(MakeMove(p, m).blocks, From(m)) == []
  {
    var from, to := From(m), To(m);
    var bs1 := if IsLateral(m) then p.blocks + [Block(to, from)] else p.blocks;
    assert MakeMove(p, m).blocks == WithoutKey(bs1, from);
    WithoutKeyMembership(bs1, from, b);
    WithoutKeyIdempotent(bs1, from);
  }

  // ---------------------------------------------------------------------
  // makeMoveAI and undoMoveAI

  /** `makeMoveAI` of a simple step to an empty square moves one piece and keeps `staticScore`. */
  lemma StepKeepsScore(p: Position, m: Move)
    requires |m| == 2 && !IsJump(m) && p.cells[From(m)] == p.whoseMove && p.cells[To(m)] == Empty
    ensures StaticScore(MakeMoveAI(p, m).cells) == StaticScore(p.cells)
    ensures MakeMoveAI(p, m).whoseMove == p.whoseMove
  {
    var c, mover := p.cells, p.whoseMove;
    var c1 := c[From(m) := Empty];
    CountUpdate(c, From(m), Empty, White);
    CountUpdate(c1, To(m), mover, White);
    CountUpdate(c, From(m), Empty, Black);
    CountUpdate(c1, To(m), mover, Black);
  }

  /**
   * `makeMoveAI` places the side to move, not the piece found on the
   * origin: a White step played while Black is to move turns the White
   * piece Black, and the static score drops by two.
   */
  lemma StepForOtherSide(p: Position, m: Move)
    requires |m| == 2 && !IsJump(m) && p.whoseMove == Black
    requires p.cells[From(m)] == White && p.cells[To(m)] == Empty
    ensures MakeMoveAI(p, m).cells == p.cells[From(m) := Empty][To(m) := Black]
    ensures StaticScore(MakeMoveAI(p, m).cells) == StaticScore(p.cells) - 2
  {
    var c := p.cells;
    var c1 := c[From(m) := Empty];
    CountUpdate(c, From(m), Empty, White);
    CountUpdate(c1, To(m), Black, White);
    CountUpdate(c, From(m), Empty, Black);
    CountUpdate(c1, To(m), Black, Black);
  }

  /**
   * While a chain is played, the board `makeMoveAI` leaves (A) and the
   * board `partialJump` leaves (C) differ only on squares already jumped:
   * those hold an opponent in A, are empty in C, and lie outside the class
   * of the square AT the piece now stands on.
   */
  predicate SearchBoardMatches(a: Cells, c: Cells, mover: Color, at: Square)
  {
    forall k: Square :: a[k] != c[k] ==> c[k] == Empty && a[k] == Opposite(mover) && !SameParity(k, at)
  }

  /**
   * One jump of a chain as `makeMoveAI` plays it on A, when it is available
   * on a board C that A matches: the landing is empty in A too, because it
   * is in the piece's class, and the jumped square already holds the
   * opponent colour it receives.  So the score is kept, and the new boards
   * match again from the landing.
   */
  lemma SearchJumpSegment(a: Cells, c: Cells, mover: Color, from: Square, to: Square)
    requires JumpSegment(c, mover, from, to) && a[from] == mover
    requires SearchBoardMatches(a, c, mover, from)
    ensures IsJump([from, to])
    ensures var a3 := a[from := Empty][to := mover][JumpedIndex(from, to) := Opposite(mover)];
      StaticScore(a3) == StaticScore(a) && a3[to] == mover
      && SearchBoardMatches(a3, PartialJump(c, mover, from, to), mover, to)
  {
    JumpGeometry(from, to);
    JumpParity(from, to);
    var j := JumpedIndex(from, to);
    assert a[to] == Empty;
    assert a[j] == Opposite(mover);
    var a1 := a[from := Empty];
    var a2 := a1[to := mover];
    var a3 := a2[j := Opposite(mover)];
    CountUpdate(a, from, Empty, White);
    CountUpdate(a1, to, mover, White);
    CountUpdate(a2, j, Opposite(mover), White);
    CountUpdate(a, from, Empty, Black);
    CountUpdate(a1, to, mover, Black);
    CountUpdate(a2, j, Opposite(mover), Black);
    var c1 := PartialJump(c, mover, from, to);
    forall k: Square | a3[k] != c1[k]
      ensures c1[k] == Empty && a3[k] == Opposite(mover) && !SameParity(k, to)
    {
    }
  }

  /**
   * `makeMoveAI` plays a chain that is valid on C, from a board A that
   * matches C, without changing `staticScore` or the side to move.
   */
  lemma {:induction false} ChainKeepsScore(a: Position, c: Cells, m: Move)
    requires ValidChain(c, a.whoseMove, m) && a.cells[From(m)] == a.whoseMove
    requires SearchBoardMatches(a.cells, c, a.whoseMove, From(m))
    ensures StaticScore(MakeMoveAI(a, m).cells) == StaticScore(a.cells)
    ensures MakeMoveAI(a, m).whoseMove == a.whoseMove
    decreases |m|
  {
    var mover, from, to := a.whoseMove, From(m), To(m);
    SearchJumpSegment(a.cells, c, mover, from, to);
    assert IsJump(m);
    if |m| > 2 {
      var a3 := a.cells[from := Empty][to := mover][JumpedIndex(from, to) := Opposite(mover)];
      var p2 := a.(cells := a3, blocks := if IsLateral(m) then a.blocks + [Block(to, from)] else a.blocks);
      ChainKeepsScore(p2, PartialJump(c, mover, from, to), m[1..]);
    }
  }

  /**
   * `makeMoveAI` of any move `getMoves()` offers leaves `staticScore` and
   * the side to move unchanged: a search move captures nothing, however
   * many jumps it makes.
   */
  lemma MakeMoveAIKeepsScore(p: Position, m: Move)
    requires m in Moves(p)
    ensures StaticScore(MakeMoveAI(p, m).cells) == StaticScore(p.cells)
    ensures MakeMoveAI(p, m).whoseMove == p.whoseMove
  {
    if JumpPossible(p.cells, p.whoseMove) {
      NonMovesChar(p.cells, p.whoseMove, m);
      ChainKeepsScore(p, p.cells, m);
    } else {
      NonJumpsChar(p.cells, p.whoseMove, p.blocks, m);
      StepGeometry(From(m), To(m));
      StepKeepsScore(p, m);
    }
  }

  /**
   * On a single-segment move, `undoMoveAI` restores the cells after
   * `makeMoveAI` when the side to move has been switched to the opponent
   * in between, and does not when it has been left as it was.
   */
  lemma UndoMoveAIRestores(p: Position, m: Move, w: Color)
    requires |m| == 2 && p.cells[From(m)] == p.whoseMove && p.cells[To(m)] == Empty
    requires IsJump(m) ==> JumpSegment(p.cells, p.whoseMove, From(m), To(m))
    ensures UndoMoveAI(MakeMoveAI(p, m).(whoseMove := w), m).cells == p.cells
        <==> w == Opposite(p.whoseMove)
  {
    var c, mover := p.cells, p.whoseMove;
    var u := UndoMoveAI(MakeMoveAI(p, m).(whoseMove := w), m).cells;
    assert From(m) != To(m);
    if IsJump(m) {
      JumpGeometry(From(m), To(m));
    }
    assert u[From(m)] == Opposite(w);
    if w == Opposite(mover) {
      forall k | 0 <= k < 25
        ensures u[k] == c[k]
      {
      }
      assert u == c;
    } else {
      assert u[From(m)] != c[From(m)];
    }
  }

  /**
   * On a multi-jump, `undoMoveAI` refills the first landing with the
   * opponent of the side to move, where the original board had it empty.
   */
  lemma UndoMoveAIRefillsLanding(q: Position, m: Move)
    requires |m| == 3 && m[1] in JumpTo[m[0]] && m[2] in JumpTo[m[1]]
    ensures UndoMoveAI(q, m).cells[m[1]] == Opposite(q.whoseMove)
  {
    JumpGeometry(m[0], m[1]);
    JumpGeometry(m[1], m[2]);
  }

  // ---------------------------------------------------------------------
  // End of game

  lemma {:induction false} NoPiecesNoSteps(c: Cells, mover: Color, bs: seq<Block>, n: nat)
    requires n <= 25 && forall k: Square :: c[k] != mover
    ensures NonJumpsUpTo(c, mover, bs, n) == [] && NonMovesUpTo(c, mover, n) == []
  {
    if n > 0 {
      NoPiecesNoSteps(c, mover, bs, n - 1);
    }
  }

  /** A side with no pieces left cannot move: `killed()` implies `cantMove()`. */
  lemma KilledCantMove(p: Position)
    requires Killed(p)
    ensures CantMove(p)
  {
    NoPiecesNoSteps(p.cells, p.whoseMove, p.blocks, 25);
  }
}
