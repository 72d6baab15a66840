/**
 * Squares and moves.  A square is its linearized index 0..24: row-major
 * from the bottom row (row '1'), column 'a' leftmost.  A move is the
 * sequence of squares it visits: a single step or jump `a3-b2` is two
 * squares, a multi-jump `a3-a5-c3` one more square per further jump.
 */
module Squares {
  import opened Wrappers

  const SIDE: int := 5

  type Square = k: int | 0 <= k < 25

  /** A move: at least its first segment (col0 row0)-(col1 row1). */
  type Move = m: seq<Square> | |m| >= 2 witness [0, 1]

  /** The linearized index of the square at column C and row R. */
  function Index(c: char, r: char): (k: Square)
    requires 'a' <= c <= 'e' && '1' <= r <= '5'
    ensures k / SIDE == r as int - '1' as int && k % SIDE == c as int - 'a' as int
  {
    (r as int - '1' as int) * SIDE + (c as int - 'a' as int)
  }

  /** The column letter of square K. */
  function Col(k: Square): (c: char)
    ensures 'a' <= c <= 'e'
  {
    ('a' as int + k % SIDE) as char
  }

  /** The row digit of square K. */
  function Row(k: Square): (r: char)
    ensures '1' <= r <= '5'
  {
    ('1' as int + k / SIDE) as char
  }

  /** Squares and (column, row) pairs correspond one to one. */
  lemma IndexColRow(k: Square, c: char, r: char)
    requires 'a' <= c <= 'e' && '1' <= r <= '5'
    ensures Index(Col(k), Row(k)) == k
    ensures Col(Index(c, r)) == c && Row(Index(c, r)) == r
  {
  }

  /** The first segment's origin and destination. */
  function From(m: Move): Square { m[0] }
  function To(m: Move): Square { m[1] }

  /** The square the whole move ends on. */
  function Last(m: Move): Square { m[|m| - 1] }

  /** `jumpTail`: the rest of a multi-jump after its first segment, or null. */
  function JumpTail(m: Move): (t: Option<Move>)
    ensures t.None? <==> |m| == 2
    ensures t.Some? ==> t.value[0] == To(m) && m == [From(m)] + t.value
  {
    if |m| == 2 then None else Some(m[1..])
  }

  /** `isJump`: the first segment spans two columns or two rows. */
  predicate IsJump(m: Move)
  {
    var dc, dr := m[1] % SIDE - m[0] % SIDE, m[1] / SIDE - m[0] / SIDE;
    dc == 2 || dc == -2 || dr == 2 || dr == -2
  }

  /**
   * `isLeftMove() || isRightMove()`: the first segment stays on its row
   * and changes column.
   */
  predicate IsLateral(m: Move)
  {
    m[1] / SIDE == m[0] / SIDE && m[1] % SIDE != m[0] % SIDE
  }

  /**
   * `Move.move(M1, M2)` for M2 starting where M1 ends: the segments of M1
   * followed by the segments of M2.
   */
  function Concat(m1: Move, m2: Move): (r: Move)
    requires Last(m1) == From(m2)
    ensures |r| == |m1| + |m2| - 1
    ensures r[..|m1|] == m1 && r[|m1| - 1..] == m2
    ensures From(r) == From(m1) && Last(r) == Last(m2)
  {
    m1 + m2[1..]
  }

  /** Concatenation is associative, so a chain may be assembled in any grouping. */
  lemma ConcatAssociative(m1: Move, m2: Move, m3: Move)
    requires Last(m1) == From(m2) && Last(m2) == From(m3)
    ensures Concat(Concat(m1, m2), m3) == Concat(m1, Concat(m2, m3))
  {
    assert (m1 + m2[1..]) + m3[1..] == m1 + (m2 + m3[1..])[1..];
  }
}
