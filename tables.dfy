/**
 * The three constant adjacency tables of the board: where a White piece
 * may step, where a Black piece may step, and where any piece may land
 * when it jumps.  Each table is indexed by the linearized square.
 */
module Tables {
  import opened Squares

  /** `whiteMoveTo`: the non-capturing destinations of a White piece. */
  const WhiteMoveTo: seq<seq<Square>> := [
    [1, 5, 6], [0, 2, 6], [1, 3, 6, 7, 8], [2, 4, 8], [3, 8, 9],
    [6, 10], [5, 7, 10, 11, 12], [6, 8, 12], [7, 9, 12, 13, 14], [8, 14],
    [6, 11, 15, 16], [10, 12, 16], [11, 13, 16, 17, 18], [12, 14, 18], [13, 18, 19],
    [16, 20], [15, 17, 20, 21, 22], [16, 18, 22], [17, 19, 22, 23, 24], [18, 24],
    [], [], [], [], []
  ]

  /** `blackMoveTo`: the non-capturing destinations of a Black piece. */
  const BlackMoveTo: seq<seq<Square>> := [
    [], [], [], [], [],
    [0, 6], [0, 1, 2, 5, 7], [2, 6, 8], [2, 3, 4, 7, 9], [4, 8],
    [5, 6, 11], [6, 10, 12], [6, 7, 8, 11, 13], [8, 12, 14], [8, 9, 13],
    [10, 16], [10, 11, 12, 15, 17], [12, 16, 18], [12, 13, 14, 17, 19], [14, 18],
    [15, 16, 21], [16, 20, 22], [16, 17, 18, 21, 23], [18, 22, 24], [18, 19, 23]
  ]

  /** `jumpTo`: the landing squares of a jump, for either colour. */
  const JumpTo: seq<seq<Square>> := [
    [2, 10, 12], [3, 11], [0, 4, 10, 12, 14], [1, 13], [2, 12, 14],
    [7, 15], [8, 16, 18], [5, 9, 17], [6, 16, 18], [7, 19],
    [0, 2, 12, 20, 22], [1, 13, 21], [0, 2, 4, 10, 14, 20, 22, 24], [3, 11, 23], [2, 4, 12, 22, 24],
    [5, 17], [6, 8, 18], [7, 15, 19], [6, 8, 16], [9, 17],
    [10, 12, 22], [11, 23], [10, 12, 14, 20, 24], [13, 21], [12, 14, 22]
  ]

  /**
   * `jumpedIndex`: the square passed over by a jump from K to I, taken as
   * the midpoint of the two linearized indices.
   */
  function JumpedIndex(k: Square, i: Square): (j: Square)
    ensures k <= i ==> k <= j <= i
    ensures i <= k ==> i <= j <= k
  {
    var difference := if i >= k then i - k else k - i;
    (if i <= k then i else k) + difference / 2
  }

  /** Geometric adjacency: one step in any of the eight directions. */
  predicate Adjacent(k: Square, i: Square)
  {
    var dc, dr := i % SIDE - k % SIDE, i / SIDE - k / SIDE;
    k != i && -1 <= dc <= 1 && -1 <= dr <= 1
  }

  /** Every table has one entry per square. */
  lemma TableSizes()
    ensures |WhiteMoveTo| == 25 && |BlackMoveTo| == 25 && |JumpTo| == 25
  {
  }

  /** Every jump in the `jumpTo` table spans two columns or two rows, the
   * jumped square is adjacent to both ends, and the linearized midpoint is
   * the geometric midpoint.
   */
  lemma JumpGeometry(k: Square, t: Square)
    requires t in JumpTo[k]
    ensures IsJump([k, t])
    ensures Adjacent(k, JumpedIndex(k, t)) && Adjacent(JumpedIndex(k, t), t)
    ensures JumpedIndex(k, t) % SIDE == (k % SIDE + t % SIDE) / 2
    ensures JumpedIndex(k, t) / SIDE == (k / SIDE + t / SIDE) / 2
  {
    if k <= 1 {
      JumpGeometry0To1(k, t);
    } else if k <= 3 {
      JumpGeometry2To3(k, t);
    } else if k <= 6 {
      JumpGeometry4To6(k, t);
    } else if k <= 9 {
      JumpGeometry7To9(k, t);
    } else if k <= 11 {
      JumpGeometry10To11(k, t);
    } else if k <= 12 {
      JumpGeometry12To12(k, t);
    } else if k <= 14 {
      JumpGeometry13To14(k, t);
    } else if k <= 17 {
      JumpGeometry15To17(k, t);
    } else if k <= 20 {
      JumpGeometry18To20(k, t);
    } else if k <= 22 {
      JumpGeometry21To22(k, t);
    } else {
      JumpGeometry23To24(k, t);
    }
  }

  /** `JumpGeometry` for the squares 0 to 1. */
  lemma JumpGeometry0To1(k: Square, t: Square)
    requires 0 <= k <= 1 && t in JumpTo[k]
    ensures IsJump([k, t])
    ensures Adjacent(k, JumpedIndex(k, t)) && Adjacent(JumpedIndex(k, t), t)
    ensures JumpedIndex(k, t) % SIDE == (k % SIDE + t % SIDE) / 2
    ensures JumpedIndex(k, t) / SIDE == (k / SIDE + t / SIDE) / 2
  {
    if k == 0 {
      assert JumpTo[0] == [2, 10, 12];
      assert t == 2 || t == 10 || t == 12;
    } else if k == 1 {
      assert JumpTo[1] == [3, 11];
      assert t == 3 || t == 11;
    }
  }

  /** `JumpGeometry` for the squares 2 to 3. */
  lemma JumpGeometry2To3(k: Square, t: Square)
    requires 2 <= k <= 3 && t in JumpTo[k]
    ensures IsJump([k, t])
    ensures Adjacent(k, JumpedIndex(k, t)) && Adjacent(JumpedIndex(k, t), t)
    ensures JumpedIndex(k, t) % SIDE == (k % SIDE + t % SIDE) / 2
    ensures JumpedIndex(k, t) / SIDE == (k / SIDE + t / SIDE) / 2
  {
    if k == 2 {
      assert JumpTo[2] == [0, 4, 10, 12, 14];
      assert t == 0 || t == 4 || t == 10 || t == 12 || t == 14;
    } else if k == 3 {
      assert JumpTo[3] == [1, 13];
      assert t == 1 || t == 13;
    }
  }

  /** `JumpGeometry` for the squares 4 to 6. */
  lemma JumpGeometry4To6(k: Square, t: Square)
    requires 4 <= k <= 6 && t in JumpTo[k]
    ensures IsJump([k, t])
    ensures Adjacent(k, JumpedIndex(k, t)) && Adjacent(JumpedIndex(k, t), t)
    ensures JumpedIndex(k, t) % SIDE == (k % SIDE + t % SIDE) / 2
    ensures JumpedIndex(k, t) / SIDE == (k / SIDE + t / SIDE) / 2
  {
    if k == 4 {
      assert JumpTo[4] == [2, 12, 14];
      assert t == 2 || t == 12 || t == 14;
    } else if k == 5 {
      assert JumpTo[5] == [7, 15];
      assert t == 7 || t == 15;
    } else if k == 6 {
      assert JumpTo[6] == [8, 16, 18];
      assert t == 8 || t == 16 || t == 18;
    }
  }

  /** `JumpGeometry` for the squares 7 to 9. */
  lemma JumpGeometry7To9(k: Square, t: Square)
    requires 7 <= k <= 9 && t in JumpTo[k]
    ensures IsJump([k, t])
    ensures Adjacent(k, JumpedIndex(k, t)) && Adjacent(JumpedIndex(k, t), t)
    ensures JumpedIndex(k, t) % SIDE == (k % SIDE + t % SIDE) / 2
    ensures JumpedIndex(k, t) / SIDE == (k / SIDE + t / SIDE) / 2
  {
    if k == 7 {
      assert JumpTo[7] == [5, 9, 17];
      assert t == 5 || t == 9 || t == 17;
    } else if k == 8 {
      assert JumpTo[8] == [6, 16, 18];
      assert t == 6 || t == 16 || t == 18;
    } else if k == 9 {
      assert JumpTo[9] == [7, 19];
      assert t == 7 || t == 19;
    }
  }

  /** `JumpGeometry` for the squares 10 to 11. */
  lemma JumpGeometry10To11(k: Square, t: Square)
    requires 10 <= k <= 11 && t in JumpTo[k]
    ensures IsJump([k, t])
    ensures Adjacent(k, JumpedIndex(k, t)) && Adjacent(JumpedIndex(k, t), t)
    ensures JumpedIndex(k, t) % SIDE == (k % SIDE + t % SIDE) / 2
    ensures JumpedIndex(k, t) / SIDE == (k / SIDE + t / SIDE) / 2
  {
    if k == 10 {
      assert JumpTo[10] == [0, 2, 12, 20, 22];
      assert t == 0 || t == 2 || t == 12 || t == 20 || t == 22;
    } else if k == 11 {
      assert JumpTo[11] == [1, 13, 21];
      assert t == 1 || t == 13 || t == 21;
    }
  }

  /** `JumpGeometry` for the squares 12 to 12. */
  lemma JumpGeometry12To12(k: Square, t: Square)
    requires 12 <= k <= 12 && t in JumpTo[k]
    ensures IsJump([k, t])
    ensures Adjacent(k, JumpedIndex(k, t)) && Adjacent(JumpedIndex(k, t), t)
    ensures JumpedIndex(k, t) % SIDE == (k % SIDE + t % SIDE) / 2
    ensures JumpedIndex(k, t) / SIDE == (k / SIDE + t / SIDE) / 2
  {
    if k == 12 {
      assert JumpTo[12] == [0, 2, 4, 10, 14, 20, 22, 24];
      assert t == 0 || t == 2 || t == 4 || t == 10 || t == 14 || t == 20 || t == 22 || t == 24;
    }
  }

  /** `JumpGeometry` for the squares 13 to 14. */
  lemma JumpGeometry13To14(k: Square, t: Square)
    requires 13 <= k <= 14 && t in JumpTo[k]
    ensures IsJump([k, t])
    ensures Adjacent(k, JumpedIndex(k, t)) && Adjacent(JumpedIndex(k, t), t)
    ensures JumpedIndex(k, t) % SIDE == (k % SIDE + t % SIDE) / 2
    ensures JumpedIndex(k, t) / SIDE == (k / SIDE + t / SIDE) / 2
  {
    if k == 13 {
      assert JumpTo[13] == [3, 11, 23];
      assert t == 3 || t == 11 || t == 23;
    } else if k == 14 {
      assert JumpTo[14] == [2, 4, 12, 22, 24];
      assert t == 2 || t == 4 || t == 12 || t == 22 || t == 24;
    }
  }

  /** `JumpGeometry` for the squares 15 to 17. */
  lemma JumpGeometry15To17(k: Square, t: Square)
    requires 15 <= k <= 17 && t in JumpTo[k]
    ensures IsJump([k, t])
    ensures Adjacent(k, JumpedIndex(k, t)) && Adjacent(JumpedIndex(k, t), t)
    ensures JumpedIndex(k, t) % SIDE == (k % SIDE + t % SIDE) / 2
    ensures JumpedIndex(k, t) / SIDE == (k / SIDE + t / SIDE) / 2
  {
    if k == 15 {
      assert JumpTo[15] == [5, 17];
      assert t == 5 || t == 17;
    } else if k == 16 {
      assert JumpTo[16] == [6, 8, 18];
      assert t == 6 || t == 8 || t == 18;
    } else if k == 17 {
      assert JumpTo[17] == [7, 15, 19];
      assert t == 7 || t == 15 || t == 19;
    }
  }

  /** `JumpGeometry` for the squares 18 to 20. */
  lemma JumpGeometry18To20(k: Square, t: Square)
    requires 18 <= k <= 20 && t in JumpTo[k]
    ensures IsJump([k, t])
    ensures Adjacent(k, JumpedIndex(k, t)) && Adjacent(JumpedIndex(k, t), t)
    ensures JumpedIndex(k, t) % SIDE == (k % SIDE + t % SIDE) / 2
    ensures JumpedIndex(k, t) / SIDE == (k / SIDE + t / SIDE) / 2
  {
    if k == 18 {
      assert JumpTo[18] == [6, 8, 16];
      assert t == 6 || t == 8 || t == 16;
    } else if k == 19 {
      assert JumpTo[19] == [9, 17];
      assert t == 9 || t == 17;
    } else if k == 20 {
      assert JumpTo[20] == [10, 12, 22];
      assert t == 10 || t == 12 || t == 22;
    }
  }

  /** `JumpGeometry` for the squares 21 to 22. */
  lemma JumpGeometry21To22(k: Square, t: Square)
    requires 21 <= k <= 22 && t in JumpTo[k]
    ensures IsJump([k, t])
    ensures Adjacent(k, JumpedIndex(k, t)) && Adjacent(JumpedIndex(k, t), t)
    ensures JumpedIndex(k, t) % SIDE == (k % SIDE + t % SIDE) / 2
    ensures JumpedIndex(k, t) / SIDE == (k / SIDE + t / SIDE) / 2
  {
    if k == 21 {
      assert JumpTo[21] == [11, 23];
      assert t == 11 || t == 23;
    } else if k == 22 {
      assert JumpTo[22] == [10, 12, 14, 20, 24];
      assert t == 10 || t == 12 || t == 14 || t == 20 || t == 24;
    }
  }

  /** `JumpGeometry` for the squares 23 to 24. */
  lemma JumpGeometry23To24(k: Square, t: Square)
    requires 23 <= k <= 24 && t in JumpTo[k]
    ensures IsJump([k, t])
    ensures Adjacent(k, JumpedIndex(k, t)) && Adjacent(JumpedIndex(k, t), t)
    ensures JumpedIndex(k, t) % SIDE == (k % SIDE + t % SIDE) / 2
    ensures JumpedIndex(k, t) / SIDE == (k / SIDE + t / SIDE) / 2
  {
    if k == 23 {
      assert JumpTo[23] == [13, 21];
      assert t == 13 || t == 21;
    } else if k == 24 {
      assert JumpTo[24] == [12, 14, 22];
      assert t == 12 || t == 14 || t == 22;
    }
  }

  /**
   * Two squares of the same colour class: equal column parity and equal
   * row parity.  A jump never leaves its class, so the squares a chain
   * lands on are never squares it jumps over.
   */
  predicate SameParity(a: Square, b: Square)
  {
    a % SIDE % 2 == b % SIDE % 2 && a / SIDE % 2 == b / SIDE % 2
  }

  /** A jump lands in its origin's class and passes over a square of another class. */
  lemma JumpParity(k: Square, t: Square)
    requires t in JumpTo[k]
    ensures SameParity(k, t) && !SameParity(k, JumpedIndex(k, t))
  {
    JumpGeometry(k, t);
    var j := JumpedIndex(k, t);
    if k < 5 {
      JumpParityRow0(k, t);
    } else if k < 10 {
      JumpParityRow1(k, t);
    } else if k < 15 {
      JumpParityRow2(k, t);
    } else if k < 20 {
      JumpParityRow3(k, t);
    } else {
      JumpParityRow4(k, t);
    }
    if t % SIDE - k % SIDE == 2 || k % SIDE - t % SIDE == 2 {
      MidpointParity(k % SIDE, t % SIDE, j % SIDE);
    } else {
      MidpointParity(k / SIDE, t / SIDE, j / SIDE);
    }
  }

  /** The midpoint of two numbers of equal parity two apart has the other parity. */
  lemma MidpointParity(a: int, b: int, mid: int)
    requires 0 <= a && 0 <= b && a % 2 == b % 2 && (b - a == 2 || a - b == 2)
    requires mid == (a + b) / 2
    ensures mid % 2 != a % 2
  {
    if b - a == 2 {
      assert mid == a + 1;
    } else {
      assert mid == b + 1;
    }
  }

  /** Every jump landing from row 1 is in its origin's class. */
  lemma JumpParityRow0(k: Square, t: Square)
    requires 0 <= k < 5 && t in JumpTo[k]
    ensures SameParity(k, t)
  {
    if k == 0 {
      assert JumpTo[0] == [2, 10, 12];
      assert t == 2 || t == 10 || t == 12;
    } else if k == 1 {
      assert JumpTo[1] == [3, 11];
      assert t == 3 || t == 11;
    } else if k == 2 {
      assert JumpTo[2] == [0, 4, 10, 12, 14];
      assert t == 0 || t == 4 || t == 10 || t == 12 || t == 14;
    } else if k == 3 {
      assert JumpTo[3] == [1, 13];
      assert t == 1 || t == 13;
    } else if k == 4 {
      assert JumpTo[4] == [2, 12, 14];
      assert t == 2 || t == 12 || t == 14;
    }
  }

  /** Every jump landing from row 2 is in its origin's class. */
  lemma JumpParityRow1(k: Square, t: Square)
    requires 5 <= k < 10 && t in JumpTo[k]
    ensures SameParity(k, t)
  {
    if k == 5 {
      assert JumpTo[5] == [7, 15];
      assert t == 7 || t == 15;
    } else if k == 6 {
      assert JumpTo[6] == [8, 16, 18];
      assert t == 8 || t == 16 || t == 18;
    } else if k == 7 {
      assert JumpTo[7] == [5, 9, 17];
      assert t == 5 || t == 9 || t == 17;
    } else if k == 8 {
      assert JumpTo[8] == [6, 16, 18];
      assert t == 6 || t == 16 || t == 18;
    } else if k == 9 {
      assert JumpTo[9] == [7, 19];
      assert t == 7 || t == 19;
    }
  }

  /** Every jump landing from row 3 is in its origin's class. */
  lemma JumpParityRow2(k: Square, t: Square)
    requires 10 <= k < 15 && t in JumpTo[k]
    ensures SameParity(k, t)
  {
    if k == 10 {
      assert JumpTo[10] == [0, 2, 12, 20, 22];
      assert t == 0 || t == 2 || t == 12 || t == 20 || t == 22;
    } else if k == 11 {
      assert JumpTo[11] == [1, 13, 21];
      assert t == 1 || t == 13 || t == 21;
    } else if k == 12 {
      assert JumpTo[12] == [0, 2, 4, 10, 14, 20, 22, 24];
      assert t == 0 || t == 2 || t == 4 || t == 10 || t == 14 || t == 20 || t == 22 || t == 24;
    } else if k == 13 {
      assert JumpTo[13] == [3, 11, 23];
      assert t == 3 || t == 11 || t == 23;
    } else if k == 14 {
      assert JumpTo[14] == [2, 4, 12, 22, 24];
      assert t == 2 || t == 4 || t == 12 || t == 22 || t == 24;
    }
  }

  /** Every jump landing from row 4 is in its origin's class. */
  lemma JumpParityRow3(k: Square, t: Square)
    requires 15 <= k < 20 && t in JumpTo[k]
    ensures SameParity(k, t)
  {
    if k == 15 {
      assert JumpTo[15] == [5, 17];
      assert t == 5 || t == 17;
    } else if k == 16 {
      assert JumpTo[16] == [6, 8, 18];
      assert t == 6 || t == 8 || t == 18;
    } else if k == 17 {
      assert JumpTo[17] == [7, 15, 19];
      assert t == 7 || t == 15 || t == 19;
    } else if k == 18 {
      assert JumpTo[18] == [6, 8, 16];
      assert t == 6 || t == 8 || t == 16;
    } else if k == 19 {
      assert JumpTo[19] == [9, 17];
      assert t == 9 || t == 17;
    }
  }

  /** Every jump landing from row 5 is in its origin's class. */
  lemma JumpParityRow4(k: Square, t: Square)
    requires 20 <= k < 25 && t in JumpTo[k]
    ensures SameParity(k, t)
  {
    if k == 20 {
      assert JumpTo[20] == [10, 12, 22];
      assert t == 10 || t == 12 || t == 22;
    } else if k == 21 {
      assert JumpTo[21] == [11, 23];
      assert t == 11 || t == 23;
    } else if k == 22 {
      assert JumpTo[22] == [10, 12, 14, 20, 24];
      assert t == 10 || t == 12 || t == 14 || t == 20 || t == 24;
    } else if k == 23 {
      assert JumpTo[23] == [13, 21];
      assert t == 13 || t == 21;
    } else if k == 24 {
      assert JumpTo[24] == [12, 14, 22];
      assert t == 12 || t == 14 || t == 22;
    }
  }

  /** Every non-capturing step in the two move tables is to an adjacent square. */
  lemma StepGeometry(k: Square, i: Square)
    requires i in WhiteMoveTo[k] || i in BlackMoveTo[k]
    ensures Adjacent(k, i) && !IsJump([k, i])
  {
    if k <= 3 {
      StepGeometry0To3(k, i);
    } else if k <= 6 {
      StepGeometry4To6(k, i);
    } else if k <= 9 {
      StepGeometry7To9(k, i);
    } else if k <= 11 {
      StepGeometry10To11(k, i);
    } else if k <= 13 {
      StepGeometry12To13(k, i);
    } else if k <= 16 {
      StepGeometry14To16(k, i);
    } else if k <= 19 {
      StepGeometry17To19(k, i);
    } else if k <= 23 {
      StepGeometry20To23(k, i);
    } else {
      StepGeometry24To24(k, i);
    }
  }

  /** `StepGeometry` for the squares 0 to 3. */
  lemma StepGeometry0To3(k: Square, i: Square)
    requires 0 <= k <= 3 && (i in WhiteMoveTo[k] || i in BlackMoveTo[k])
    ensures Adjacent(k, i) && !IsJump([k, i])
  {
    if k == 0 {
      assert WhiteMoveTo[0] == [1, 5, 6];
      assert BlackMoveTo[0] == [];
      assert i == 1 || i == 5 || i == 6;
    } else if k == 1 {
      assert WhiteMoveTo[1] == [0, 2, 6];
      assert BlackMoveTo[1] == [];
      assert i == 0 || i == 2 || i == 6;
    } else if k == 2 {
      assert WhiteMoveTo[2] == [1, 3, 6, 7, 8];
      assert BlackMoveTo[2] == [];
      assert i == 1 || i == 3 || i == 6 || i == 7 || i == 8;
    } else if k == 3 {
      assert WhiteMoveTo[3] == [2, 4, 8];
      assert BlackMoveTo[3] == [];
      assert i == 2 || i == 4 || i == 8;
    }
  }

  /** `StepGeometry` for the squares 4 to 6. */
  lemma StepGeometry4To6(k: Square, i: Square)
    requires 4 <= k <= 6 && (i in WhiteMoveTo[k] || i in BlackMoveTo[k])
    ensures Adjacent(k, i) && !IsJump([k, i])
  {
    if k == 4 {
      assert WhiteMoveTo[4] == [3, 8, 9];
      assert BlackMoveTo[4] == [];
      assert i == 3 || i == 8 || i == 9;
    } else if k == 5 {
      assert WhiteMoveTo[5] == [6, 10];
      assert BlackMoveTo[5] == [0, 6];
      assert i == 0 || i == 6 || i == 10;
    } else if k == 6 {
      assert WhiteMoveTo[6] == [5, 7, 10, 11, 12];
      assert BlackMoveTo[6] == [0, 1, 2, 5, 7];
      assert i == 0 || i == 1 || i == 2 || i == 5 || i == 7 || i == 10 || i == 11 || i == 12;
    }
  }

  /** `StepGeometry` for the squares 7 to 9. */
  lemma StepGeometry7To9(k: Square, i: Square)
    requires 7 <= k <= 9 && (i in WhiteMoveTo[k] || i in BlackMoveTo[k])
    ensures Adjacent(k, i) && !IsJump([k, i])
  {
    if k == 7 {
      assert WhiteMoveTo[7] == [6, 8, 12];
      assert BlackMoveTo[7] == [2, 6, 8];
      assert i == 2 || i == 6 || i == 8 || i == 12;
    } else if k == 8 {
      assert WhiteMoveTo[8] == [7, 9, 12, 13, 14];
      assert BlackMoveTo[8] == [2, 3, 4, 7, 9];
      assert i == 2 || i == 3 || i == 4 || i == 7 || i == 9 || i == 12 || i == 13 || i == 14;
    } else if k == 9 {
      assert WhiteMoveTo[9] == [8, 14];
      assert BlackMoveTo[9] == [4, 8];
      assert i == 4 || i == 8 || i == 14;
    }
  }

  /** `StepGeometry` for the squares 10 to 11. */
  lemma StepGeometry10To11(k: Square, i: Square)
    requires 10 <= k <= 11 && (i in WhiteMoveTo[k] || i in BlackMoveTo[k])
    ensures Adjacent(k, i) && !IsJump([k, i])
  {
    if k == 10 {
      assert WhiteMoveTo[10] == [6, 11, 15, 16];
      assert BlackMoveTo[10] == [5, 6, 11];
      assert i == 5 || i == 6 || i == 11 || i == 15 || i == 16;
    } else if k == 11 {
      assert WhiteMoveTo[11] == [10, 12, 16];
      assert BlackMoveTo[11] == [6, 10, 12];
      assert i == 6 || i == 10 || i == 12 || i == 16;
    }
  }

  /** `StepGeometry` for the squares 12 to 13. */
  lemma StepGeometry12To13(k: Square, i: Square)
    requires 12 <= k <= 13 && (i in WhiteMoveTo[k] || i in BlackMoveTo[k])
    ensures Adjacent(k, i) && !IsJump([k, i])
  {
    if k == 12 {
      assert WhiteMoveTo[12] == [11, 13, 16, 17, 18];
      assert BlackMoveTo[12] == [6, 7, 8, 11, 13];
      assert i == 6 || i == 7 || i == 8 || i == 11 || i == 13 || i == 16 || i == 17 || i == 18;
    } else if k == 13 {
      assert WhiteMoveTo[13] == [12, 14, 18];
      assert BlackMoveTo[13] == [8, 12, 14];
      assert i == 8 || i == 12 || i == 14 || i == 18;
    }
  }

  /** `StepGeometry` for the squares 14 to 16. */
  lemma StepGeometry14To16(k: Square, i: Square)
    requires 14 <= k <= 16 && (i in WhiteMoveTo[k] || i in BlackMoveTo[k])
    ensures Adjacent(k, i) && !IsJump([k, i])
  {
    if k == 14 {
      assert WhiteMoveTo[14] == [13, 18, 19];
      assert BlackMoveTo[14] == [8, 9, 13];
      assert i == 8 || i == 9 || i == 13 || i == 18 || i == 19;
    } else if k == 15 {
      assert WhiteMoveTo[15] == [16, 20];
      assert BlackMoveTo[15] == [10, 16];
      assert i == 10 || i == 16 || i == 20;
    } else if k == 16 {
      assert WhiteMoveTo[16] == [15, 17, 20, 21, 22];
      assert BlackMoveTo[16] == [10, 11, 12, 15, 17];
      assert i == 10 || i == 11 || i == 12 || i == 15 || i == 17 || i == 20 || i == 21 || i == 22;
    }
  }

  /** `StepGeometry` for the squares 17 to 19. */
  lemma StepGeometry17To19(k: Square, i: Square)
    requires 17 <= k <= 19 && (i in WhiteMoveTo[k] || i in BlackMoveTo[k])
    ensures Adjacent(k, i) && !IsJump([k, i])
  {
    if k == 17 {
      assert WhiteMoveTo[17] == [16, 18, 22];
      assert BlackMoveTo[17] == [12, 16, 18];
      assert i == 12 || i == 16 || i == 18 || i == 22;
    } else if k == 18 {
      assert WhiteMoveTo[18] == [17, 19, 22, 23, 24];
      assert BlackMoveTo[18] == [12, 13, 14, 17, 19];
      assert i == 12 || i == 13 || i == 14 || i == 17 || i == 19 || i == 22 || i == 23 || i == 24;
    } else if k == 19 {
      assert WhiteMoveTo[19] == [18, 24];
      assert BlackMoveTo[19] == [14, 18];
      assert i == 14 || i == 18 || i == 24;
    }
  }

  /** `StepGeometry` for the squares 20 to 23. */
  lemma StepGeometry20To23(k: Square, i: Square)
    requires 20 <= k <= 23 && (i in WhiteMoveTo[k] || i in BlackMoveTo[k])
    ensures Adjacent(k, i) && !IsJump([k, i])
  {
    if k == 20 {
      assert WhiteMoveTo[20] == [];
      assert BlackMoveTo[20] == [15, 16, 21];
      assert i == 15 || i == 16 || i == 21;
    } else if k == 21 {
      assert WhiteMoveTo[21] == [];
      assert BlackMoveTo[21] == [16, 20, 22];
      assert i == 16 || i == 20 || i == 22;
    } else if k == 22 {
      assert WhiteMoveTo[22] == [];
      assert BlackMoveTo[22] == [16, 17, 18, 21, 23];
      assert i == 16 || i == 17 || i == 18 || i == 21 || i == 23;
    } else if k == 23 {
      assert WhiteMoveTo[23] == [];
      assert BlackMoveTo[23] == [18, 22, 24];
      assert i == 18 || i == 22 || i == 24;
    }
  }

  /** `StepGeometry` for the squares 24 to 24. */
  lemma StepGeometry24To24(k: Square, i: Square)
    requires 24 <= k <= 24 && (i in WhiteMoveTo[k] || i in BlackMoveTo[k])
    ensures Adjacent(k, i) && !IsJump([k, i])
  {
    if k == 24 {
      assert WhiteMoveTo[24] == [];
      assert BlackMoveTo[24] == [18, 19, 23];
      assert i == 18 || i == 19 || i == 23;
    }
  }

  /**
   * White steps never go to a lower row, except the single entry
   * a3 to b2 (10 to 6); Black steps never go to a higher row.
   */
  lemma StepDirection(k: Square, i: Square)
    ensures i in WhiteMoveTo[k] && i / SIDE < k / SIDE <==> k == 10 && i == 6
    ensures i in BlackMoveTo[k] ==> i / SIDE <= k / SIDE
  {
    if k / SIDE == 0 {
      StepDirectionRow0(k, i);
    } else if k / SIDE == 1 {
      StepDirectionRow1(k, i);
    } else if k / SIDE == 2 {
      StepDirectionRow2(k, i);
    } else if k / SIDE == 3 {
      StepDirectionRow3(k, i);
    } else {
      StepDirectionRow4(k, i);
    }
  }


  /** `StepDirection` for the squares of row 0. */
  lemma StepDirectionRow0(k: Square, i: Square)
    requires k / SIDE == 0
    ensures i in WhiteMoveTo[k] && i / SIDE < k / SIDE <==> k == 10 && i == 6
    ensures i in BlackMoveTo[k] ==> i / SIDE <= k / SIDE
  {
    if k == 0 {
      assert WhiteMoveTo[0] == [1, 5, 6];
      assert BlackMoveTo[0] == [];
    } else if k == 1 {
      assert WhiteMoveTo[1] == [0, 2, 6];
      assert BlackMoveTo[1] == [];
    } else if k == 2 {
      assert WhiteMoveTo[2] == [1, 3, 6, 7, 8];
      assert BlackMoveTo[2] == [];
    } else if k == 3 {
      assert WhiteMoveTo[3] == [2, 4, 8];
      assert BlackMoveTo[3] == [];
    } else if k == 4 {
      assert WhiteMoveTo[4] == [3, 8, 9];
      assert BlackMoveTo[4] == [];
    }
  }

  /** `StepDirection` for the squares of row 1. */
  lemma StepDirectionRow1(k: Square, i: Square)
    requires k / SIDE == 1
    ensures i in WhiteMoveTo[k] && i / SIDE < k / SIDE <==> k == 10 && i == 6
    ensures i in BlackMoveTo[k] ==> i / SIDE <= k / SIDE
  {
    if k == 5 {
      assert WhiteMoveTo[5] == [6, 10];
      assert BlackMoveTo[5] == [0, 6];
    } else if k == 6 {
      assert WhiteMoveTo[6] == [5, 7, 10, 11, 12];
      assert BlackMoveTo[6] == [0, 1, 2, 5, 7];
    } else if k == 7 {
      assert WhiteMoveTo[7] == [6, 8, 12];
      assert BlackMoveTo[7] == [2, 6, 8];
    } else if k == 8 {
      assert WhiteMoveTo[8] == [7, 9, 12, 13, 14];
      assert BlackMoveTo[8] == [2, 3, 4, 7, 9];
    } else if k == 9 {
      assert WhiteMoveTo[9] == [8, 14];
      assert BlackMoveTo[9] == [4, 8];
    }
  }

  /** `StepDirection` for the squares of row 2. */
  lemma StepDirectionRow2(k: Square, i: Square)
    requires k / SIDE == 2
    ensures i in WhiteMoveTo[k] && i / SIDE < k / SIDE <==> k == 10 && i == 6
    ensures i in BlackMoveTo[k] ==> i / SIDE <= k / SIDE
  {
    if k == 10 {
      assert WhiteMoveTo[10] == [6, 11, 15, 16];
      assert BlackMoveTo[10] == [5, 6, 11];
    } else if k == 11 {
      assert WhiteMoveTo[11] == [10, 12, 16];
      assert BlackMoveTo[11] == [6, 10, 12];
    } else if k == 12 {
      assert WhiteMoveTo[12] == [11, 13, 16, 17, 18];
      assert BlackMoveTo[12] == [6, 7, 8, 11, 13];
    } else if k == 13 {
      assert WhiteMoveTo[13] == [12, 14, 18];
      assert BlackMoveTo[13] == [8, 12, 14];
    } else if k == 14 {
      assert WhiteMoveTo[14] == [13, 18, 19];
      assert BlackMoveTo[14] == [8, 9, 13];
    }
  }

  /** `StepDirection` for the squares of row 3. */
  lemma StepDirectionRow3(k: Square, i: Square)
    requires k / SIDE == 3
    ensures i in WhiteMoveTo[k] && i / SIDE < k / SIDE <==> k == 10 && i == 6
    ensures i in BlackMoveTo[k] ==> i / SIDE <= k / SIDE
  {
    if k == 15 {
      assert WhiteMoveTo[15] == [16, 20];
      assert BlackMoveTo[15] == [10, 16];
    } else if k == 16 {
      assert WhiteMoveTo[16] == [15, 17, 20, 21, 22];
      assert BlackMoveTo[16] == [10, 11, 12, 15, 17];
    } else if k == 17 {
      assert WhiteMoveTo[17] == [16, 18, 22];
      assert BlackMoveTo[17] == [12, 16, 18];
    } else if k == 18 {
      assert WhiteMoveTo[18] == [17, 19, 22, 23, 24];
      assert BlackMoveTo[18] == [12, 13, 14, 17, 19];
    } else if k == 19 {
      assert WhiteMoveTo[19] == [18, 24];
      assert BlackMoveTo[19] == [14, 18];
    }
  }

  /** `StepDirection` for the squares of row 4. */
  lemma StepDirectionRow4(k: Square, i: Square)
    requires k / SIDE == 4
    ensures i in WhiteMoveTo[k] && i / SIDE < k / SIDE <==> k == 10 && i == 6
    ensures i in BlackMoveTo[k] ==> i / SIDE <= k / SIDE
  {
    if k == 20 {
      assert WhiteMoveTo[20] == [];
      assert BlackMoveTo[20] == [15, 16, 21];
    } else if k == 21 {
      assert WhiteMoveTo[21] == [];
      assert BlackMoveTo[21] == [16, 20, 22];
    } else if k == 22 {
      assert WhiteMoveTo[22] == [];
      assert BlackMoveTo[22] == [16, 17, 18, 21, 23];
    } else if k == 23 {
      assert WhiteMoveTo[23] == [];
      assert BlackMoveTo[23] == [18, 22, 24];
    } else if k == 24 {
      assert WhiteMoveTo[24] == [];
      assert BlackMoveTo[24] == [18, 19, 23];
    }
  }
}
