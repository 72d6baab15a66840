/**
 * The three kinds of contents of a Qirkat square (the `PieceColor` enum):
 * no piece, a white piece or a black piece, with the opponent relation,
 * the one-letter and full names, and parsing of the full name.
 */
module PieceColor {
  import opened Wrappers

  datatype Piece = Empty | White | Black

  /** A piece colour proper: what a side to move or a winner can be. */
  type Color = p: Piece | p != Empty witness White

  /** `isPiece`: true of the two colours, false of an empty square. */
  predicate IsPiece(p: Piece)
  {
    p != Empty
  }

  /** `opposite` on a colour: the opponent's colour. */
  function Opposite(c: Color): (r: Color)
    ensures r != c
    ensures IsPiece(r)
  {
    if c == White then Black else White
  }

  /**
   * `opposite` on any piece value, where EMPTY throws
   * UnsupportedOperationException: `None` stands for that exception.
   */
  function OppositeOf(p: Piece): (r: Option<Piece>)
    ensures r.None? <==> !IsPiece(p)
    ensures r.Some? ==> IsPiece(r.value) && r.value != p
  {
    if p == Empty then None else Some(Opposite(p))
  }

  lemma OppositeInvolution(p: Piece, q: Piece)
    requires OppositeOf(p) == Some(q)
    ensures OppositeOf(q) == Some(p)
    ensures p == White <==> q == Black
  {
  }

  /** `shortName`: the one-character denotation used in board layouts. */
  function ShortName(p: Piece): (r: string)
    ensures |r| == 1
    ensures r[0] in {'b', 'w', '-'}
  {
    match p
    case Black => "b"
    case White => "w"
    case Empty => "-"
  }

  /** `toString`: the capitalised full name. */
  function Name(p: Piece): (r: string)
    ensures |r| == 5
  {
    match p
    case White => "White"
    case Black => "Black"
    case Empty => "Empty"
  }

  /** ASCII lower-casing of one character; other characters are unchanged. */
  function LowerChar(ch: char): (r: char)
    ensures 'A' <= ch <= 'Z' ==> r as int == ch as int + 32
    ensures !('A' <= ch <= 'Z') ==> r == ch
  {
    if 'A' <= ch <= 'Z' then (ch as int + 32) as char else ch
  }

  /** ASCII upper-casing of one character; other characters are unchanged. */
  function UpperChar(ch: char): (r: char)
    ensures 'a' <= ch <= 'z' ==> r as int == ch as int - 32
    ensures !('a' <= ch <= 'z') ==> r == ch
  {
    if 'a' <= ch <= 'z' then (ch as int - 32) as char else ch
  }

  /** `String.toLowerCase`, restricted to ASCII letters. */
  function Lower(s: string): (r: string)
    ensures |r| == |s|
    ensures forall i :: 0 <= i < |s| ==> r[i] == LowerChar(s[i])
  {
    if s == [] then [] else [LowerChar(s[0])] + Lower(s[1..])
  }

  /** The piece whose lower-case name is T, if any. */
  function FromLowerName(t: string): Option<Piece>
  {
    if t == "white" then Some(White)
    else if t == "black" then Some(Black)
    else if t == "empty" then Some(Empty)
    else None
  }

  /**
   * `fromString`: the piece whose name equals S ignoring case; `None`
   * stands for the `Error("not a valid PieceColor")` thrown otherwise.
   */
  function FromString(s: string): (r: Option<Piece>)
  {
    FromLowerName(Lower(s))
  }

  /** The lower-case forms of the three names. */
  lemma LowerName(p: Piece)
    ensures Lower(Name(p)) == match p
      case White => "white"
      case Black => "black"
      case Empty => "empty"
  {
    match p
    case White =>
      assert Lower("White") == "white";
    case Black =>
      assert Lower("Black") == "black";
    case Empty =>
      assert Lower("Empty") == "empty";
  }

  /** `fromString` inverts `toString` on all three values. */
  lemma FromStringName(p: Piece)
    ensures FromString(Name(p)) == Some(p)
  {
    LowerName(p);
  }

  /**
   * `fromString` accepts a string exactly when it spells one of the three
   * names in some mixture of cases, and then returns that piece.
   */
  lemma FromStringExactly(s: string, p: Piece)
    ensures FromString(s) == Some(p) <==> Lower(s) == Lower(Name(p))
  {
    LowerName(p);
    var t := Lower(s);
    assert FromString(s) == FromLowerName(t);
  }

  /** Distinct pieces have distinct one-letter and full names. */
  lemma NamesDistinct(p: Piece, q: Piece)
    requires p != q
    ensures ShortName(p) != ShortName(q)
    ensures Name(p) != Name(q)
  {
  }

  /** `capitalize`: the first character upper-cased, the rest unchanged. */
  function Capitalize(word: string): (r: string)
    requires |word| > 0
    ensures |r| == |word| && r[1..] == word[1..]
    ensures r[0] == UpperChar(word[0])
  {
    [UpperChar(word[0])] + word[1..]
  }

  /** Every full name is a capitalised lower-case word. */
  lemma CapitalizeName(p: Piece)
    ensures Capitalize(Lower(Name(p))) == Name(p)
  {
    LowerName(p);
  }
}
