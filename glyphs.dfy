/** SYMBOLS of chessplotlib/plot.py: piece letter to the chess glyph drawn for it. */
module Glyphs {
  import opened Chess

  /** White pieces are the outlined glyphs U+2654..U+2659, black pieces the filled U+265A..U+265F;
      the black pawn carries the text-presentation selector U+FE0E as well. */
  const SYMBOLS: map<string, string> := map[
    "K" := "\U{2654}",
    "Q" := "\U{2655}",
    "R" := "\U{2656}",
    "B" := "\U{2657}",
    "N" := "\U{2658}",
    "P" := "\U{2659}",
    "k" := "\U{265A}",
    "q" := "\U{265B}",
    "r" := "\U{265C}",
    "b" := "\U{265D}",
    "n" := "\U{265E}",
    "p" := "\U{265F}\U{FE0E}"
  ]

  /** The twelve keys in the order of the table. */
  const KEYS: seq<string> := ["K", "Q", "R", "B", "N", "P", "k", "q", "r", "b", "n", "p"]

  /** The keys of the table are exactly the entries of KEYS. */
  lemma SymbolTableDomain()
    ensures forall s :: s in SYMBOLS <==> s in KEYS
  {
    assert SYMBOLS.Keys == {"K", "Q", "R", "B", "N", "P", "k", "q", "r", "b", "n", "p"};
  }

  /** The i-th glyph of the table starts with code point U+2654 + i. */
  lemma SymbolTableCodes(i: int)
    requires 0 <= i < 12
    ensures KEYS[i] in SYMBOLS && |SYMBOLS[KEYS[i]]| >= 1 && SYMBOLS[KEYS[i]][0] as int == 0x2654 + i
  {
    SymbolTableDomain();
    assert KEYS[i] in KEYS;
  }

  /** No key appears twice in KEYS: equal keys would look up glyphs with equal first code points. */
  lemma SymbolKeysDistinct(i: int, j: int)
    requires 0 <= i < j < 12
    ensures KEYS[i] != KEYS[j]
  {
    SymbolTableCodes(i);
    SymbolTableCodes(j);
  }

  /** The table has exactly twelve entries. */
  lemma SymbolTableSize()
    ensures |SYMBOLS| == 12
  {
    SymbolTableDomain();
    assert SYMBOLS.Keys == set s | s in KEYS;
    forall i, j | 0 <= i < j < |KEYS| ensures KEYS[i] != KEYS[j] {
      SymbolKeysDistinct(i, j);
    }
    DistinctCount(KEYS);
  }

  lemma {:induction false} DistinctCount(xs: seq<string>)
    requires forall i, j | 0 <= i < j < |xs| :: xs[i] != xs[j]
    ensures |set s | s in xs| == |xs|
  {
    if xs != [] {
      DistinctCount(xs[1..]);
      assert (set s | s in xs) == {xs[0]} + (set s | s in xs[1..]);
    }
  }

  /** No two keys share a glyph. */
  lemma GlyphsDistinct(s: string, t: string)
    requires s in SYMBOLS && t in SYMBOLS && s != t
    ensures SYMBOLS[s] != SYMBOLS[t]
  {
    SymbolTableDomain();
    var i :| 0 <= i < 12 && KEYS[i] == s;
    var j :| 0 <= j < 12 && KEYS[j] == t;
    SymbolTableCodes(i);
    SymbolTableCodes(j);
    assert SYMBOLS[s][0] != SYMBOLS[t][0];
  }

  /** The piece whose symbol is KEYS[i]. */
  function KeyPiece(i: int): Piece
    requires 0 <= i < 12
  {
    Piece([King, Queen, Rook, Bishop, Knight, Pawn][i % 6], if i < 6 then White else Black)
  }

  /** KEYS[i] is the symbol of KeyPiece(i). */
  lemma KeyPieceSymbol(i: int)
    requires 0 <= i < 12
    ensures Symbol(KeyPiece(i)) == KEYS[i]
  {
    assert Symbol(KeyPiece(i))[0] == KEYS[i][0];
  }

  /** The keys are exactly the symbols of the twelve pieces. */
  lemma SymbolTableCoversPieces()
    ensures forall p: Piece :: Symbol(p) in SYMBOLS
    ensures forall s :: s in SYMBOLS ==> exists p: Piece :: Symbol(p) == s
  {
    SymbolTableDomain();
    forall s | s in SYMBOLS ensures exists p: Piece :: Symbol(p) == s {
      var i :| 0 <= i < 12 && KEYS[i] == s;
      KeyPieceSymbol(i);
    }
    forall p: Piece ensures Symbol(p) in SYMBOLS {
      var i := match p.pieceType
        case King => 0 case Queen => 1 case Rook => 2 case Bishop => 3 case Knight => 4 case Pawn => 5;
      var k := if p.color == White then i else i + 6;
      assert KeyPiece(k) == p;
      KeyPieceSymbol(k);
    }
  }

  /** The glyph drawn for a piece: SYMBOLS[piece.symbol()]. */
  function PieceGlyph(p: Piece): (g: string)
    ensures Symbol(p) in SYMBOLS && g == SYMBOLS[Symbol(p)]
  {
    SymbolTableCoversPieces();
    SYMBOLS[Symbol(p)]
  }

  /** Distinct pieces are drawn with distinct glyphs. */
  lemma PieceGlyphInjective(p: Piece, q: Piece)
    requires PieceGlyph(p) == PieceGlyph(q)
    ensures p == q
  {
    SymbolTableCoversPieces();
    if Symbol(p) != Symbol(q) {
      GlyphsDistinct(Symbol(p), Symbol(q));
    }
    SymbolInjective(p, q);
  }
}
