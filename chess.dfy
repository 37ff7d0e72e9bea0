/**
 * The parts of the python-chess library the plotting code relies on:
 * square numbering and names, the SQUARES_180 traversal order, pieces and
 * their letters, moves and boards. Only what the plotting code reads is here.
 */
module Chess {
  import opened Wrappers

  /** A square index as python-chess numbers them: a1 = 0, b1 = 1, ..., h8 = 63. */
  type Square = sq: int | 0 <= sq < 64

  const FileLetters: string := "abcdefgh"
  const RankDigits: string := "12345678"

  /** chess.SQUARE_NAMES[sq]: the file letter of `sq % 8` followed by the rank digit of `sq / 8`. */
  function SquareName(sq: Square): (name: string)
    ensures |name| == 2 && name[0] in FileLetters && name[1] in RankDigits
  {
    [FileLetters[sq % 8], RankDigits[sq / 8]]
  }

  /** chess.SQUARE_NAMES as the list that `plot_move` searches with `.index`. */
  function SquareNames(): (names: seq<string>)
    ensures |names| == 64
    ensures forall sq: Square :: names[sq] == SquareName(sq)
  {
    seq(64, i requires 0 <= i < 64 => SquareName(i))
  }

  /** Different squares have different names. */
  lemma SquareNameInjective(a: Square, b: Square)
    requires SquareName(a) == SquareName(b)
    ensures a == b
  {
    assert FileLetters[a % 8] == FileLetters[b % 8];
    assert RankDigits[a / 8] == RankDigits[b / 8];
    assert a == 8 * (a / 8) + a % 8 && b == 8 * (b / 8) + b % 8;
  }

  /** Searching the name list for a square's name finds that very square. */
  lemma IndexOfSquareName(sq: Square)
    ensures IndexOf(SquareNames(), SquareName(sq)) == Some(sq)
  {
    var names := SquareNames();
    assert names[sq] == SquareName(sq);
    var r := IndexOf(names, SquareName(sq));
    SquareNameInjective(r.value, sq);
  }

  /** chess.square_mirror: the same file on the rank reflected top to bottom (sq XOR 56). */
  function Mirror(sq: Square): Square
  {
    (7 - sq / 8) * 8 + sq % 8
  }

  lemma MirrorInvolution(sq: Square)
    ensures Mirror(Mirror(sq)) == sq
  {
    var m := Mirror(sq);
    assert m / 8 == 7 - sq / 8 && m % 8 == sq % 8;
  }

  /** chess.SQUARES_180: the squares mirrored top to bottom, in index order, so a8..h8 come first and a1..h1 last. */
  function Squares180(): (order: seq<Square>)
    ensures |order| == 64
  {
    seq(64, i requires 0 <= i < 64 => Mirror(i))
  }

  /** A traversal order that visits every square exactly once. */
  ghost predicate VisitsEachSquareOnce(order: seq<Square>)
  {
    forall sq: Square :: multiset(order)[sq] == 1
  }

  /** Mirror is its own inverse, so square i of the order is sq exactly when i is sq's mirror image. */
  lemma MirrorSwap(i: Square, sq: Square)
    ensures Mirror(i) == sq <==> i == Mirror(sq)
  {
    MirrorInvolution(i);
    MirrorInvolution(sq);
  }

  /** The tail of SQUARES_180 from position i holds sq once if sq's mirror image is at least i, and not at all otherwise. */
  lemma {:induction false} Squares180TailCount(i: nat, sq: Square)
    requires i <= 64
    ensures multiset(Squares180()[i..])[sq] == if i <= Mirror(sq) then 1 else 0
    decreases 64 - i
  {
    var order := Squares180();
    if i < 64 {
      Squares180TailCount(i + 1, sq);
      MirrorSwap(i, sq);
      assert order[i..] == [order[i]] + order[i + 1..];
      assert multiset(order[i..]) == multiset([order[i]]) + multiset(order[i + 1..]);
    } else {
      assert order[i..] == [];
    }
  }

  /** SQUARES_180 is a permutation of the 64 squares. */
  lemma Squares180VisitsEachSquareOnce()
    ensures |Squares180()| == 64
    ensures VisitsEachSquareOnce(Squares180())
  {
    var order := Squares180();
    assert order[0..] == order;
    forall sq: Square ensures multiset(order)[sq] == 1 {
      Squares180TailCount(0, sq);
    }
  }

  /** chess.PieceType, chess.Color and chess.Piece. */
  datatype PieceType = Pawn | Knight | Bishop | Rook | Queen | King
  datatype Color = White | Black
  datatype Piece = Piece(pieceType: PieceType, color: Color)

  /** chess.PIECE_SYMBOLS[pieceType]: the lower-case letter of a piece type. */
  function PieceTypeLetter(t: PieceType): string
  {
    match t
    case Pawn => "p"
    case Knight => "n"
    case Bishop => "b"
    case Rook => "r"
    case Queen => "q"
    case King => "k"
  }

  /** Piece.symbol(): the type letter, upper case for White. */
  function Symbol(p: Piece): (s: string)
    ensures |s| == 1
    ensures s[0] in "KQRBNPkqrbnp"
  {
    var letter := PieceTypeLetter(p.pieceType);
    if p.color == White then [UpperCase(letter[0])] else letter
  }

  function UpperCase(c: char): char
  {
    if 'a' <= c <= 'z' then (c as int - 'a' as int + 'A' as int) as char else c
  }

  /** Distinct pieces have distinct symbols: the symbol names the piece. */
  lemma SymbolInjective(p: Piece, q: Piece)
    requires Symbol(p) == Symbol(q)
    ensures p == q
  {
  }

  /** chess.Move: origin, destination and optional promotion type. */
  datatype Move = Move(fromSquare: Square, toSquare: Square, promotion: Option<PieceType>)

  /** A position: the piece on each occupied square; a square without a key is empty. */
  type Board = map<Square, Piece>

  /** Board.piece_at(sq). */
  function PieceAt(board: Board, sq: Square): Option<Piece>
  {
    if sq in board then Some(board[sq]) else None
  }
}
