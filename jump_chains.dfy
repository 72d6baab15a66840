/**
 * What `getJumps` generates.  A chain is valid when each of its jumps is
 * available on the board left by the jumps before it; it is maximal when,
 * after the last jump, the landing piece has no further jump.  The
 * generator yields exactly the maximal valid chains from its square, and
 * `getNonMoves` exactly those starting on a square of the side to move.
 */
module JumpChains {
  import opened PieceColor
  import opened Squares
  import opened Tables
  import opened BoardRules

  /** Each jump of M is available once the jumps before it have been made. */
  predicate ValidChain(c: Cells, mover: Color, m: Move)
    decreases |m|
  {
    JumpSegment(c, mover, m[0], m[1])
    && (|m| == 2 || ValidChain(PartialJump(c, mover, m[0], m[1]), mover, m[1..]))
  }

  /** The cells after each jump of M is made with `partialJump`. */
  function AfterChain(c: Cells, mover: Color, m: Move): Cells
    decreases |m|
  {
    var c1 := PartialJump(c, mover, m[0], m[1]);
    if |m| == 2 then c1 else AfterChain(c1, mover, m[1..])
  }

  /** A valid chain after which its piece has no further jump. */
  predicate MaximalChain(c: Cells, mover: Color, m: Move)
  {
    ValidChain(c, mover, m) && !JumpPossibleAt(AfterChain(c, mover, m), mover, Last(m))
  }

  /** The squares jumped over by the segments of M, in order. */
  function JumpedSquares(m: Move): (r: seq<Square>)
    ensures |r| == |m| - 1
    ensures r[0] == JumpedIndex(m[0], m[1])
    decreases |m|
  {
    [JumpedIndex(m[0], m[1])] + (if |m| == 2 then [] else JumpedSquares(m[1..]))
  }

  // ---------------------------------------------------------------------
  // Emptiness

  /** `JumpsVia` yields something exactly when its single jump is available. */
  lemma JumpsViaNonEmpty(c: Cells, mover: Color, from: Square, to: Square)
    ensures JumpsVia(c, mover, from, to) != [] <==> JumpSegment(c, mover, from, to)
  {
    if JumpSegment(c, mover, from, to) {
      var tails := Jumps(PartialJump(c, mover, from, to), mover, to);
      if tails != [] {
        assert |Extend([from, to], tails)| == |tails|;
      }
    }
  }

  lemma {:induction false} JumpsUpToEmpty(c: Cells, mover: Color, from: Square, n: nat)
    requires n <= |JumpTo[from]|
    ensures JumpsUpTo(c, mover, from, n) == []
        <==> forall i :: 0 <= i < n ==> !JumpSegment(c, mover, from, JumpTo[from][i])
  {
    if n > 0 {
      var t := JumpTo[from][n - 1];
      JumpsUpToEmpty(c, mover, from, n - 1);
      JumpsViaNonEmpty(c, mover, from, t);
      assert JumpsUpTo(c, mover, from, n) == JumpsUpTo(c, mover, from, n - 1) + JumpsVia(c, mover, from, t);
      if JumpsUpTo(c, mover, from, n) == [] {
        forall i | 0 <= i < n
          ensures !JumpSegment(c, mover, from, JumpTo[from][i])
        {
          if i < n - 1 {
            assert !JumpSegment(c, mover, from, JumpTo[from][i]);
          }
        }
      }
    }
  }

  /** `getJumps` from FROM yields nothing exactly when no jump from FROM is available. */
  lemma JumpsEmpty(c: Cells, mover: Color, from: Square)
    ensures Jumps(c, mover, from) == [] <==> !JumpPossibleAt(c, mover, from)
  {
    JumpsUpToEmpty(c, mover, from, |JumpTo[from]|);
    if JumpPossibleAt(c, mover, from) {
      var t: Square :| JumpSegment(c, mover, from, t);
      var i :| 0 <= i < |JumpTo[from]| && JumpTo[from][i] == t;
    }
  }

  // ---------------------------------------------------------------------
  // Characterisation

  /** The chains `Extend([from, to], tails)` are `from` followed by a tail. */
  lemma ExtendMembership(from: Square, to: Square, tails: seq<Move>, m: Move)
    requires forall t :: t in tails ==> From(t) == to
    ensures m in Extend([from, to], tails) <==> |m| > 2 && m[0] == from && m[1..] in tails
  {
    var r := Extend([from, to], tails);
    if m in r {
      var j :| 0 <= j < |r| && r[j] == m;
      assert m == Concat([from, to], tails[j]);
      assert m[1..] == tails[j];
    }
    if |m| > 2 && m[0] == from && m[1..] in tails {
      var j :| 0 <= j < |tails| && tails[j] == m[1..];
      assert r[j] == m;
    }
  }

  /** A chain through `JumpsVia(from, to)` is a maximal valid chain beginning from-to. */
  lemma {:induction false} JumpsViaChar(c: Cells, mover: Color, from: Square, to: Square, m: Move)
    ensures m in JumpsVia(c, mover, from, to)
        <==> From(m) == from && To(m) == to && MaximalChain(c, mover, m)
    decreases Count(c, Opposite(mover)), 0, 0
  {
    if JumpSegment(c, mover, from, to) {
      PartialJumpCaptures(c, mover, from, to);
      var c1 := PartialJump(c, mover, from, to);
      var tails := Jumps(c1, mover, to);
      JumpsEmpty(c1, mover, to);
      ExtendMembership(from, to, tails, m);
      if |m| > 2 {
        JumpsChar(c1, mover, to, m[1..]);
        if From(m) == from && To(m) == to {
          assert ValidChain(c, mover, m) <==> ValidChain(c1, mover, m[1..]);
          assert AfterChain(c, mover, m) == AfterChain(c1, mover, m[1..]);
          assert Last(m) == Last(m[1..]);
        }
      } else if From(m) == from && To(m) == to {
        assert m == [from, to];
        assert AfterChain(c, mover, m) == c1;
      }
    }
  }

  lemma {:induction false} JumpsUpToChar(c: Cells, mover: Color, from: Square, n: nat, m: Move)
    requires n <= |JumpTo[from]|
    ensures m in JumpsUpTo(c, mover, from, n)
        <==> From(m) == from && To(m) in JumpTo[from][..n] && MaximalChain(c, mover, m)
    decreases Count(c, Opposite(mover)), 1, n
  {
    if n > 0 {
      var t := JumpTo[from][n - 1];
      JumpsUpToChar(c, mover, from, n - 1, m);
      JumpsViaChar(c, mover, from, t, m);
      assert JumpsUpTo(c, mover, from, n) == JumpsUpTo(c, mover, from, n - 1) + JumpsVia(c, mover, from, t);
      var before := JumpTo[from][..n - 1];
      assert JumpTo[from][..n] == before + [t];
      assert To(m) in before + [t] <==> To(m) in before || To(m) == t;
    }
  }

  /**
   * `getJumps(moves, from)` adds exactly the maximal valid chains
   * starting at FROM.
   */
  lemma {:induction false} JumpsChar(c: Cells, mover: Color, from: Square, m: Move)
    ensures m in Jumps(c, mover, from) <==> From(m) == from && MaximalChain(c, mover, m)
    decreases Count(c, Opposite(mover)), 2, 0
  {
    JumpsUpToChar(c, mover, from, |JumpTo[from]|, m);
    assert JumpTo[from][..|JumpTo[from]|] == JumpTo[from];
  }

  lemma {:induction false} NonMovesUpToChar(c: Cells, mover: Color, n: nat, m: Move)
    requires n <= 25
    ensures m in NonMovesUpTo(c, mover, n)
        <==> From(m) < n && c[From(m)] == mover && MaximalChain(c, mover, m)
  {
    if n > 0 {
      var k := n - 1;
      NonMovesUpToChar(c, mover, k, m);
      JumpsChar(c, mover, k, m);
      NonMovesUpToStep(c, mover, n, m);
    }
  }

  /** One step of `getNonMoves()`: the chains of square N - 1 are added when it holds MOVER. */
  lemma NonMovesUpToStep(c: Cells, mover: Color, n: nat, m: Move)
    requires 0 < n <= 25
    ensures m in NonMovesUpTo(c, mover, n)
        <==> m in NonMovesUpTo(c, mover, n - 1) || (c[n - 1] == mover && m in Jumps(c, mover, n - 1))
  {
    assert NonMovesUpTo(c, mover, n)
      == NonMovesUpTo(c, mover, n - 1) + (if c[n - 1] == mover then Jumps(c, mover, n - 1) else []);
  }

  /**
   * `getNonMoves()` yields exactly the maximal valid chains that start on
   * a piece of the side to move.
   */
  lemma NonMovesChar(c: Cells, mover: Color, m: Move)
    ensures m in NonMoves(c, mover) <==> c[From(m)] == mover && MaximalChain(c, mover, m)
  {
    NonMovesUpToChar(c, mover, 25, m);
  }

  /** No piece of MOVER on a square below N has a jump available. */
  predicate NoJumpBelow(c: Cells, mover: Color, n: nat)
  {
    forall k: Square :: k < n && c[k] == mover ==> !JumpPossibleAt(c, mover, k)
  }

  lemma NoJumpBelowStep(c: Cells, mover: Color, n: nat)
    requires 0 < n <= 25
    ensures NoJumpBelow(c, mover, n)
        <==> NoJumpBelow(c, mover, n - 1) && (c[n - 1] == mover ==> !JumpPossibleAt(c, mover, n - 1))
  {
  }

  lemma {:induction false} NonMovesUpToEmpty(c: Cells, mover: Color, n: nat)
    requires n <= 25
    ensures NonMovesUpTo(c, mover, n) == [] <==> NoJumpBelow(c, mover, n)
  {
    if n > 0 {
      var k := n - 1;
      NonMovesUpToEmpty(c, mover, k);
      JumpsEmpty(c, mover, k);
      NoJumpBelowStep(c, mover, n);
      var front := NonMovesUpTo(c, mover, k);
      var rest := if c[k] == mover then Jumps(c, mover, k) else [];
      assert NonMovesUpTo(c, mover, n) == front + rest;
      assert |front + rest| == |front| + |rest|;
    }
  }

  /** `getNonMoves()` yields something exactly when `jumpPossible()`. */
  lemma NonMovesEmpty(c: Cells, mover: Color)
    ensures NonMoves(c, mover) == [] <==> !JumpPossible(c, mover)
  {
    NonMovesUpToEmpty(c, mover, 25);
  }

  // ---------------------------------------------------------------------
  // Order

  /** The moves of MS, in order, have non-decreasing origins. */
  predicate ByOrigin(ms: seq<Move>)
  {
    forall i, j :: 0 <= i < j < |ms| ==> From(ms[i]) <= From(ms[j])
  }

  /** Appending moves from square K to moves from squares below K keeps the order. */
  lemma ByOriginAppend(front: seq<Move>, back: seq<Move>, k: Square)
    requires ByOrigin(front) && forall m :: m in front ==> From(m) < k
    requires forall m :: m in back ==> From(m) == k
    ensures ByOrigin(front + back)
  {
    var r := front + back;
    forall i, j | 0 <= i < j < |r|
      ensures From(r[i]) <= From(r[j])
    {
      if j < |front| {
        assert r[i] == front[i] && r[j] == front[j];
      } else if i < |front| {
        assert r[i] in front && r[j] in back;
      } else {
        assert r[i] in back && r[j] in back;
      }
    }
  }

  /** `getNonMoves()` lists the jump sequences by ascending origin. */
  lemma {:induction false} NonMovesByOrigin(c: Cells, mover: Color, n: nat)
    requires n <= 25
    ensures ByOrigin(NonMovesUpTo(c, mover, n))
  {
    if n > 0 {
      NonMovesByOrigin(c, mover, n - 1);
      ByOriginAppend(NonMovesUpTo(c, mover, n - 1),
                     if c[n - 1] == mover then Jumps(c, mover, n - 1) else [], n - 1);
    }
  }

  /** `getNonJumps()` lists the simple moves by ascending origin. */
  lemma {:induction false} NonJumpsByOrigin(c: Cells, mover: Color, bs: seq<Block>, n: nat)
    requires n <= 25
    ensures ByOrigin(NonJumpsUpTo(c, mover, bs, n))
  {
    if n > 0 {
      NonJumpsByOrigin(c, mover, bs, n - 1);
      ByOriginAppend(NonJumpsUpTo(c, mover, bs, n - 1),
                     if c[n - 1] == mover then SimpleMovesFrom(c, mover, bs, n - 1) else [], n - 1);
    }
  }

  /** `getMoves()` lists its moves by ascending origin. */
  lemma MovesByOrigin(p: Position)
    ensures ByOrigin(Moves(p))
  {
    NonMovesByOrigin(p.cells, p.whoseMove, 25);
    NonJumpsByOrigin(p.cells, p.whoseMove, p.blocks, 25);
  }

  // ---------------------------------------------------------------------
  // Consequences for getMoves

  /** A valid chain's first segment is a jump: it spans two rows or two columns. */
  lemma ValidChainIsJump(c: Cells, mover: Color, m: Move)
    requires ValidChain(c, mover, m)
    ensures IsJump(m)
  {
    JumpGeometry(m[0], m[1]);
  }

  /**
   * Captures are forced: while the game is on and a jump is possible,
   * every move `getMoves()` offers is a jump, and there is at least one.
   */
  lemma CapturesForced(p: Position)
    requires !p.gameOver && JumpPossible(p.cells, p.whoseMove)
    ensures Moves(p) != []
    ensures forall m :: m in Moves(p) ==> IsJump(m) && MaximalChain(p.cells, p.whoseMove, m)
  {
    NonMovesEmpty(p.cells, p.whoseMove);
    forall m | m in Moves(p)
      ensures IsJump(m) && MaximalChain(p.cells, p.whoseMove, m)
    {
      NonMovesChar(p.cells, p.whoseMove, m);
      ValidChainIsJump(p.cells, p.whoseMove, m);
    }
  }

  /**
   * While the game is on, `cantMove()` holds exactly when `getMoves()` is
   * empty: the generator offers a jump whenever one is possible.
   */
  lemma CantMoveIffNoMoves(p: Position)
    requires !p.gameOver
    ensures CantMove(p) <==> Moves(p) == []
  {
    NonMovesEmpty(p.cells, p.whoseMove);
  }

  /**
   * Once the game is over `getMoves()` offers nothing, so `cantMove()`
   * turns on `jumpPossible()` alone: a finished game with a jump left
   * still can move.
   */
  lemma CantMoveAfterGameOver(p: Position)
    requires p.gameOver
    ensures Moves(p) == []
    ensures CantMove(p) <==> !JumpPossible(p.cells, p.whoseMove)
  {
  }
}
