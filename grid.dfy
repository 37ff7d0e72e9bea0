/**
 * `_square_to_grid` of chessplotlib/plot.py: a square name to the integer
 * drawing coordinates of its centre. File a..h is x = 0..7 and rank 8..1 is
 * y = 0..7, so rank 8 is at the top of a y axis that grows downwards.
 */
module Grid {
  import opened Wrappers
  import opened Chess

  /** The list the first character is looked up in. */
  const FilesLeftToRight: string := "abcdefgh"
  /** The list the second character is looked up in. */
  const RanksTopToBottom: string := "87654321"

  /** The two lookup lists hold consecutive characters. */
  lemma LookupListsConsecutive()
    ensures |FilesLeftToRight| == |RanksTopToBottom| == 8
    ensures forall i | 0 <= i < 8 :: FilesLeftToRight[i] as int == 'a' as int + i
    ensures forall i | 0 <= i < 8 :: RanksTopToBottom[i] as int == '8' as int - i
  {
  }

  /** The position of a file letter in the file list: a..h are 0..7, anything else is not found. */
  function FileIndex(c: char): Option<nat>
  {
    if 'a' <= c <= 'h' then Some(c as int - 'a' as int) else None
  }

  /** The position of a rank digit in the rank list: 8..1 are 0..7, anything else is not found. */
  function RankIndex(c: char): Option<nat>
  {
    if '1' <= c <= '8' then Some('8' as int - c as int) else None
  }

  /** The file position is what `list.index` finds in the source's file list, and None exactly where it raises. */
  lemma FileIndexIsListIndex(c: char)
    ensures FileIndex(c) == IndexOf(FilesLeftToRight, c)
  {
    LookupListsConsecutive();
    var r := IndexOf(FilesLeftToRight, c);
    if 'a' <= c <= 'h' {
      assert FilesLeftToRight[c as int - 'a' as int] == c;
      assert FilesLeftToRight[r.value] as int == 'a' as int + r.value;
    } else {
      assert c !in FilesLeftToRight;
    }
  }

  /** The rank position is what `list.index` finds in the source's rank list, and None exactly where it raises. */
  lemma RankIndexIsListIndex(c: char)
    ensures RankIndex(c) == IndexOf(RanksTopToBottom, c)
  {
    LookupListsConsecutive();
    var r := IndexOf(RanksTopToBottom, c);
    if '1' <= c <= '8' {
      assert RanksTopToBottom['8' as int - c as int] == c;
      assert RanksTopToBottom[r.value] as int == '8' as int - r.value;
    } else {
      assert c !in RanksTopToBottom;
    }
  }

  /**
   * The grid point of a square name. Only the first two characters are read;
   * a missing character or one outside the lists is an error (Python's
   * IndexError or ValueError), here None.
   */
  function SquareToGrid(square: string): (r: Option<(int, int)>)
    ensures r.Some? <==> |square| >= 2 && 'a' <= square[0] <= 'h' && '1' <= square[1] <= '8'
    ensures r.Some? ==> r.value == (square[0] as int - 'a' as int, '8' as int - square[1] as int)
  {
    if |square| < 2 then None
    else
      var y := RankIndex(square[1]);
      var x := FileIndex(square[0]);
      if y.None? || x.None? then None else Some((x.value as int, y.value as int))
  }

  /** The inverse direction: the two-character name of a grid point. */
  function GridToName(x: int, y: int): (name: string)
    requires 0 <= x < 8 && 0 <= y < 8
    ensures |name| == 2
  {
    [('a' as int + x) as char, ('8' as int - y) as char]
  }

  /** The square index at a grid point. */
  function GridSquare(x: int, y: int): Square
    requires 0 <= x < 8 && 0 <= y < 8
  {
    (7 - y) * 8 + x
  }

  /** The grid point of a square index: file as x, rank counted from the top as y. */
  function SquareX(sq: Square): int { sq % 8 }
  function SquareY(sq: Square): int { 7 - sq / 8 }

  /** Grid point to name and back returns the grid point. */
  lemma GridRoundTrip(x: int, y: int)
    requires 0 <= x < 8 && 0 <= y < 8
    ensures SquareToGrid(GridToName(x, y)) == Some((x, y))
  {
  }

  /** A well-formed two-character name maps to a grid point whose name is the original. */
  lemma NameRoundTrip(square: string)
    requires |square| == 2 && SquareToGrid(square).Some?
    ensures GridToName(SquareToGrid(square).value.0, SquareToGrid(square).value.1) == square
  {
    var g := SquareToGrid(square).value;
    var name := GridToName(g.0, g.1);
    assert name[0] == square[0] && name[1] == square[1];
    assert name == square[..1] + square[1..];
  }

  /** The python-chess name of a square lands on that square's grid point. */
  lemma SquareToGridOfName(sq: Square)
    ensures SquareToGrid(SquareName(sq)) == Some((SquareX(sq), SquareY(sq)))
  {
    ChessNamesConsecutive();
  }

  /** The letters and digits of python-chess square names are consecutive characters. */
  lemma ChessNamesConsecutive()
    ensures forall i | 0 <= i < 8 :: FileLetters[i] as int == 'a' as int + i
    ensures forall i | 0 <= i < 8 :: RankDigits[i] as int == '1' as int + i
  {
  }

  /** From square to grid point and back: every square has a grid point in [0,7]x[0,7], and that point leads back to it. */
  lemma SquareGridRoundTrip(sq: Square)
    ensures 0 <= SquareX(sq) < 8 && 0 <= SquareY(sq) < 8
    ensures GridSquare(SquareX(sq), SquareY(sq)) == sq
  {
  }

  /** From grid point to square and back; the square's python-chess name is the grid point's name. */
  lemma GridSquareRoundTrip(x: int, y: int)
    requires 0 <= x < 8 && 0 <= y < 8
    ensures SquareX(GridSquare(x, y)) == x && SquareY(GridSquare(x, y)) == y
    ensures SquareName(GridSquare(x, y)) == GridToName(x, y)
  {
    var g := GridSquare(x, y);
    assert g / 8 == 7 - y && g % 8 == x;
    ChessNamesConsecutive();
  }
}
