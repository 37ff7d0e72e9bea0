/**
 * The drawing half of chessplotlib/plot.py: plot_board, add_piece,
 * add_arrow, plot_move, mark_square and mark_move, each of which appends
 * drawing calls to a matplotlib Axes in a fixed order.
 *
 * The Axes is a class holding the append-only list of calls made on it.
 * Coordinates are the integer grid points of Grid.SquareToGrid; the places
 * where the source offsets a coordinate by -0.5 are kept exactly by writing
 * them in half units (a field whose name ends in 2 holds twice the
 * coordinate), and the +0.05 text offset and all styling floats other than
 * the caller's alpha and colour are left out.
 */
module Drawing {
  import opened Wrappers
  import opened Chess
  import opened Grid
  import opened Glyphs

  /** The alpha and colour a caller passes to add_piece, add_arrow and plot_move. */
  datatype Style = Style(alpha: real, color: string)

  /** alpha=1.0, color="black": the defaults of add_piece and add_arrow. */
  const DefaultStyle: Style := Style(1.0, "black")

  /** One drawing call made on the Axes. */
  datatype Draw =
      /** ax.axhline / ax.axvline at coordinate at2 / 2 */
    | GridLine(horizontal: bool, at2: int)
      /** set_xticks, set_xticklabels, set_yticks, set_yticklabels */
    | Labels(xTicks: seq<int>, xLabels: seq<string>, yTicks: seq<int>, yLabels: seq<string>)
      /** ax.imshow of the checker pattern: parity[y][x] */
    | Checker(parity: seq<seq<int>>)
      /** ax.text of a piece glyph centred on (x, y) */
    | Glyph(x: int, y: int, glyph: string, style: Style)
      /** ax.arrow from (x, y) by (dx, dy) */
    | Arrow(x: int, y: int, dx: int, dy: int, style: Style)
      /** ax.add_patch of a 1 x 1 rectangle with lower corner (x2 / 2, y2 / 2) */
    | Rect(x2: int, y2: int)

  /** The exceptions the drawing functions can raise. */
  datatype Error =
      /** _square_to_grid on a malformed name (IndexError or ValueError) */
    | InvalidSquare
      /** SYMBOLS[piece] on a string that is not a key (KeyError) */
    | UnknownPiece
      /** plot_move calling .symbol() on the None found on an empty origin (AttributeError) */
    | EmptyOrigin
      /** plot_move calling .symbol() on the promotion letter, a str (AttributeError) */
    | PromotionIsText

  datatype Outcome = Completed | Raised(error: Error)

  /** What a call appends to the Axes before it returns or raises, and how it ends. */
  datatype Emitted = Emitted(layers: seq<Draw>, outcome: Outcome)

  /** A matplotlib Axes, reduced to the calls made on it. */
  class Axes {
    var draws: seq<Draw>

    constructor ()
      ensures draws == []
    {
      draws := [];
    }

    /** ax.clear() */
    method Clear()
      modifies this
      ensures draws == []
    {
      draws := [];
    }

    method Add(d: Draw)
      modifies this
      ensures draws == old(draws) + [d]
    {
      draws := draws + [d];
    }
  }

  // ---------------------------------------------------------------------------
  // add_piece, add_arrow, mark_square
  // ---------------------------------------------------------------------------

  /** add_piece(ax, square, piece, alpha, color): the square is resolved first, then the glyph is looked up. */
  function AddPieceEffect(square: string, piece: string, style: Style): Emitted
  {
    match SquareToGrid(square)
    case None => Emitted([], Raised(InvalidSquare))
    case Some((x, y)) =>
      if piece in SYMBOLS then Emitted([Glyph(x, y, SYMBOLS[piece], style)], Completed)
      else Emitted([], Raised(UnknownPiece))
  }

  method AddPiece(ax: Axes, square: string, piece: string, style: Style) returns (outcome: Outcome)
    modifies ax
    ensures ax.draws == old(ax.draws) + AddPieceEffect(square, piece, style).layers
    ensures outcome == AddPieceEffect(square, piece, style).outcome
  {
    var grid := SquareToGrid(square);
    if grid.None? {
      return Raised(InvalidSquare);
    }
    var (x, y) := grid.value;
    if piece !in SYMBOLS {
      return Raised(UnknownPiece);
    }
    ax.Add(Glyph(x, y, SYMBOLS[piece], style));
    return Completed;
  }

  /**
   * add_piece completes exactly when the square name is valid and the piece
   * string is the symbol of a chess piece, and then draws that piece's glyph
   * at the square's grid point; otherwise it raises before drawing anything.
   */
  lemma AddPieceOutcome(square: string, piece: string, style: Style)
    ensures var e := AddPieceEffect(square, piece, style);
      && (e.outcome == Completed <==> SquareToGrid(square).Some? && exists p: Piece :: Symbol(p) == piece)
      && (e.outcome.Raised? ==> e.layers == [])
      && (SquareToGrid(square).None? ==> e.outcome == Raised(InvalidSquare))
      && (e.outcome == Completed ==> forall p: Piece :: Symbol(p) == piece ==>
            e.layers == [Glyph(SquareToGrid(square).value.0, SquareToGrid(square).value.1, PieceGlyph(p), style)])
  {
    SymbolTableCoversPieces();
  }

  /** Drawing a chess piece on a named square puts its glyph on that square's grid point. */
  lemma AddPieceOnSquare(sq: Square, p: Piece, style: Style)
    ensures AddPieceEffect(SquareName(sq), Symbol(p), style)
         == Emitted([Glyph(SquareX(sq), SquareY(sq), PieceGlyph(p), style)], Completed)
  {
    SquareToGridOfName(sq);
  }

  /** add_arrow(ax, from_square, to_square, alpha, color): an arrow from the origin's grid point by the difference of the two points. */
  function AddArrowEffect(fromSquare: string, toSquare: string, style: Style): Emitted
  {
    var from, to := SquareToGrid(fromSquare), SquareToGrid(toSquare);
    if from.None? || to.None? then Emitted([], Raised(InvalidSquare))
    else
      var (fromX, fromY) := from.value;
      var (toX, toY) := to.value;
      Emitted([Arrow(fromX, fromY, toX - fromX, toY - fromY, style)], Completed)
  }

  method AddArrow(ax: Axes, fromSquare: string, toSquare: string, style: Style) returns (outcome: Outcome)
    modifies ax
    ensures ax.draws == old(ax.draws) + AddArrowEffect(fromSquare, toSquare, style).layers
    ensures outcome == AddArrowEffect(fromSquare, toSquare, style).outcome
  {
    var from := SquareToGrid(fromSquare);
    var to := SquareToGrid(toSquare);
    if from.None? || to.None? {
      return Raised(InvalidSquare);
    }
    var (fromX, fromY) := from.value;
    var (toX, toY) := to.value;
    ax.Add(Arrow(fromX, fromY, toX - fromX, toY - fromY, style));
    return Completed;
  }

  /**
   * add_arrow completes exactly when both names are valid; the arrow then
   * starts on the origin's grid point and its displacement carries it onto
   * the destination's grid point. Otherwise nothing is drawn.
   */
  lemma AddArrowOutcome(fromSquare: string, toSquare: string, style: Style)
    ensures var e := AddArrowEffect(fromSquare, toSquare, style);
      && (e.outcome == Completed <==> SquareToGrid(fromSquare).Some? && SquareToGrid(toSquare).Some?)
      && (e.outcome.Raised? ==> e.layers == [])
      && (e.outcome == Completed ==>
            |e.layers| == 1 && e.layers[0].Arrow? && e.layers[0].style == style
            && SquareToGrid(fromSquare) == Some((e.layers[0].x, e.layers[0].y))
            && SquareToGrid(toSquare) == Some((e.layers[0].x + e.layers[0].dx, e.layers[0].y + e.layers[0].dy)))
  {
  }

  /** The outline mark_square draws around a square: a unit cell whose lower corner is the grid point minus (0.5, 0.5). */
  function CellOutline(sq: Square): (r: Draw)
    ensures r.Rect? && r.x2 + 1 == 2 * SquareX(sq) && r.y2 + 1 == 2 * SquareY(sq)
  {
    Rect(2 * SquareX(sq) - 1, 2 * SquareY(sq) - 1)
  }

  /** The square whose cell a rectangle frames: the grid point at its centre (corner plus one half). */
  lemma CellOutlineFramesSquare(sq: Square)
    ensures var r := CellOutline(sq);
      (r.x2 + 1) % 2 == 0 && (r.y2 + 1) % 2 == 0
      && 0 <= (r.x2 + 1) / 2 < 8 && 0 <= (r.y2 + 1) / 2 < 8
      && GridSquare((r.x2 + 1) / 2, (r.y2 + 1) / 2) == sq
  {
    var r := CellOutline(sq);
    var x, y := SquareX(sq), SquareY(sq);
    assert r.x2 + 1 == 2 * x && r.y2 + 1 == 2 * y;
    assert (2 * x) / 2 == x && (2 * y) / 2 == y;
    SquareGridRoundTrip(sq);
  }

  /** mark_square(ax, square): a unit rectangle whose corner is the grid point minus (0.5, 0.5). */
  function MarkSquareEffect(square: string): Emitted
  {
    match SquareToGrid(square)
    case None => Emitted([], Raised(InvalidSquare))
    case Some((x, y)) => Emitted([Rect(2 * x - 1, 2 * y - 1)], Completed)
  }

  /** mark_square completes exactly on a valid name, and then outlines the square of that name; otherwise nothing is drawn. */
  lemma MarkSquareOutcome(square: string)
    ensures var e := MarkSquareEffect(square);
      && (e.outcome == Completed <==> SquareToGrid(square).Some?)
      && (e.outcome.Raised? ==> e.layers == [])
      && (e.outcome == Completed ==>
            e.layers == [CellOutline(GridSquare(SquareToGrid(square).value.0, SquareToGrid(square).value.1))])
  {
    if SquareToGrid(square).Some? {
      var (x, y) := SquareToGrid(square).value;
      var sq := GridSquare(x, y);
      GridSquareRoundTrip(x, y);
      assert CellOutline(sq) == Rect(2 * x - 1, 2 * y - 1);
    }
  }

  method MarkSquare(ax: Axes, square: string) returns (outcome: Outcome)
    modifies ax
    ensures ax.draws == old(ax.draws) + MarkSquareEffect(square).layers
    ensures outcome == MarkSquareEffect(square).outcome
  {
    var grid := SquareToGrid(square);
    if grid.None? {
      return Raised(InvalidSquare);
    }
    var (x, y) := grid.value;
    ax.Add(Rect(2 * x - 1, 2 * y - 1));
    return Completed;
  }

  /** Marking a square by its python-chess name outlines that square. */
  lemma MarkSquareOnSquare(sq: Square)
    ensures MarkSquareEffect(SquareName(sq)) == Emitted([CellOutline(sq)], Completed)
  {
    SquareToGridOfName(sq);
  }

  // ---------------------------------------------------------------------------
  // _from_square, _to_square, plot_move, mark_move
  // ---------------------------------------------------------------------------

  /** _from_square(move): the name of the origin square. */
  function FromSquareName(move: Move): (name: string)
    ensures SquareToGrid(name) == Some((SquareX(move.fromSquare), SquareY(move.fromSquare)))
  {
    SquareToGridOfName(move.fromSquare);
    SquareName(move.fromSquare)
  }

  /** _to_square(move): the name of the destination square and the promotion letter, "" when there is none. */
  function ToSquareName(move: Move): (r: (string, string))
    ensures SquareToGrid(r.0) == Some((SquareX(move.toSquare), SquareY(move.toSquare)))
    ensures r.1 == "" <==> move.promotion.None?
    ensures move.promotion.Some? ==> r.1 == PieceTypeLetter(move.promotion.value)
  {
    SquareToGridOfName(move.toSquare);
    var promotion := if move.promotion.Some? then PieceTypeLetter(move.promotion.value) else "";
    (SquareName(move.toSquare), promotion)
  }

  /** The arrow plot_move draws: from the origin's grid point to the destination's. */
  function MoveArrow(move: Move, style: Style): (a: Draw)
    ensures a.Arrow? && a.style == style
    ensures a.x == SquareX(move.fromSquare) && a.y == SquareY(move.fromSquare)
    ensures a.x + a.dx == SquareX(move.toSquare) && a.y + a.dy == SquareY(move.toSquare)
  {
    var fromX, fromY := SquareX(move.fromSquare), SquareY(move.fromSquare);
    Arrow(fromX, fromY, SquareX(move.toSquare) - fromX, SquareY(move.toSquare) - fromY, style)
  }

  /** An arrow between two python-chess square names is the move's arrow, and drawing it completes. */
  lemma AddArrowOnSquares(move: Move, style: Style)
    ensures AddArrowEffect(SquareName(move.fromSquare), SquareName(move.toSquare), style)
         == Emitted([MoveArrow(move, style)], Completed)
  {
    SquareToGridOfName(move.fromSquare);
    SquareToGridOfName(move.toSquare);
  }

  /**
   * plot_move(ax, board, move, alpha, color) as the source has it: the arrow
   * first, then the moving piece's glyph on the destination, both in the
   * caller's style. The glyph needs `.symbol()` of the piece chosen for the
   * destination, so the call raises after the arrow is drawn when the origin
   * is empty and whenever the move has a promotion (the promotion is a plain
   * letter there).
   */
  function PlotMoveEffect(board: Board, move: Move, style: Style): Emitted
  {
    var arrow := MoveArrow(move, style);
    if move.promotion.Some? then Emitted([arrow], Raised(PromotionIsText))
    else
      match PieceAt(board, move.fromSquare)
      case None => Emitted([arrow], Raised(EmptyOrigin))
      case Some(p) =>
        Emitted([arrow, Glyph(SquareX(move.toSquare), SquareY(move.toSquare), PieceGlyph(p), style)], Completed)
  }

  method PlotMove(ax: Axes, board: Board, move: Move, style: Style) returns (outcome: Outcome)
    modifies ax
    ensures ax.draws == old(ax.draws) + PlotMoveEffect(board, move, style).layers
    ensures outcome == PlotMoveEffect(board, move, style).outcome
  {
    var fromName := FromSquareName(move);
    var (toName, promotion) := ToSquareName(move);
    IndexOfSquareName(move.fromSquare);
    var square := IndexOf(SquareNames(), fromName).value;
    var fromPiece := PieceAt(board, square);
    AddArrowOnSquares(move, style);
    var arrowOutcome := AddArrow(ax, fromName, toName, style);
    if promotion != "" {
      // to_piece is the promotion letter, a str without .symbol()
      return Raised(PromotionIsText);
    }
    if fromPiece.None? {
      // to_piece is None
      return Raised(EmptyOrigin);
    }
    AddPieceOnSquare(move.toSquare, fromPiece.value, style);
    outcome := AddPiece(ax, toName, Symbol(fromPiece.value), style);
  }

  /**
   * plot_move as written always draws the move's arrow; it completes exactly
   * when the move has no promotion and its origin is occupied, and otherwise
   * raises with the arrow as the only thing drawn.
   */
  lemma PlotMoveOutcome(board: Board, move: Move, style: Style)
    ensures var e := PlotMoveEffect(board, move, style);
      && |e.layers| >= 1 && e.layers[0] == MoveArrow(move, style)
      && (e.outcome == Completed <==> move.promotion.None? && PieceAt(board, move.fromSquare).Some?)
      && (move.promotion.Some? ==> e == Emitted([MoveArrow(move, style)], Raised(PromotionIsText)))
      && (move.promotion.None? && PieceAt(board, move.fromSquare).None? ==>
            e == Emitted([MoveArrow(move, style)], Raised(EmptyOrigin)))
  {
  }

  /**
   * plot_move as evidently intended: a promotion shows the promoted piece, in
   * the moving piece's colour, on the destination. Only an empty origin raises.
   */
  function IntendedPlotMoveEffect(board: Board, move: Move, style: Style): Emitted
  {
    var arrow := MoveArrow(move, style);
    match PieceAt(board, move.fromSquare)
    case None => Emitted([arrow], Raised(EmptyOrigin))
    case Some(p) =>
      var shown := if move.promotion.Some? then Piece(move.promotion.value, p.color) else p;
      Emitted([arrow, Glyph(SquareX(move.toSquare), SquareY(move.toSquare), PieceGlyph(shown), style)], Completed)
  }

  /**
   * Every move whose origin is occupied is drawn as two layers in the
   * caller's style: the arrow onto the destination, then the glyph of the
   * piece that stands there after the move (the promoted piece, coloured as
   * the mover, when there is a promotion). Without a promotion this is what
   * plot_move draws.
   */
  lemma IntendedPlotMoveDrawsArrivingPiece(board: Board, move: Move, style: Style)
    requires PieceAt(board, move.fromSquare).Some?
    ensures var e := IntendedPlotMoveEffect(board, move, style);
      var p := PieceAt(board, move.fromSquare).value;
      e.outcome == Completed && |e.layers| == 2
      && e.layers[0] == MoveArrow(move, style)
      && e.layers[1].Glyph? && e.layers[1].style == style
      && (e.layers[1].x, e.layers[1].y) == (SquareX(move.toSquare), SquareY(move.toSquare))
      && (move.promotion.Some? ==> e.layers[1].glyph == PieceGlyph(Piece(move.promotion.value, p.color)))
      && (move.promotion.None? ==> e.layers[1].glyph == PieceGlyph(p) && e == PlotMoveEffect(board, move, style))
  {
  }

  /**
   * A white pawn promoting on e8 (e7e8q): plot_move as written draws the arrow
   * and then raises, while the intended behaviour draws a white queen on e8.
   */
  lemma PromotionRaisesAsWritten()
    ensures var board: Board := map[52 := Piece(Pawn, White)];
      var move := Move(52, 60, Some(Queen));
      && PlotMoveEffect(board, move, DefaultStyle) == Emitted([Arrow(4, 1, 0, -1, DefaultStyle)], Raised(PromotionIsText))
      && IntendedPlotMoveEffect(board, move, DefaultStyle)
         == Emitted([Arrow(4, 1, 0, -1, DefaultStyle), Glyph(4, 0, "\U{2655}", DefaultStyle)], Completed)
  {
    SymbolTableDomain();
    assert Symbol(Piece(Queen, White)) == "Q";
  }

  /** mark_move(ax, move): the outline of the origin, then that of the destination. */
  function MarkMoveLayers(move: Move): (layers: seq<Draw>)
  {
    [CellOutline(move.fromSquare), CellOutline(move.toSquare)]
  }

  method MarkMove(ax: Axes, move: Move)
    modifies ax
    ensures ax.draws == old(ax.draws) + MarkMoveLayers(move)
  {
    var fromName := FromSquareName(move);
    var (toName, _) := ToSquareName(move);
    MarkSquareOnSquare(move.fromSquare);
    MarkSquareOnSquare(move.toSquare);
    var fromOutcome := MarkSquare(ax, fromName);
    var toOutcome := MarkSquare(ax, toName);
  }

  /** mark_move draws exactly two outlines, framing the origin and then the destination, even when the two coincide. */
  lemma MarkMoveFramesBothSquares(move: Move)
    ensures var layers := MarkMoveLayers(move);
      |layers| == 2 && layers[0].Rect? && layers[1].Rect?
      && GridSquare((layers[0].x2 + 1) / 2, (layers[0].y2 + 1) / 2) == move.fromSquare
      && GridSquare((layers[1].x2 + 1) / 2, (layers[1].y2 + 1) / 2) == move.toSquare
  {
    CellOutlineFramesSquare(move.fromSquare);
    CellOutlineFramesSquare(move.toSquare);
  }

  // ---------------------------------------------------------------------------
  // plot_board and make_checkers
  // ---------------------------------------------------------------------------

  /** The grid lines of the first n passes of plot_board's loop: per pass a horizontal then a vertical line at i - 0.5. */
  function GridLines(n: nat): (lines: seq<Draw>)
    ensures |lines| == 2 * n
    ensures forall k | 0 <= k < |lines| :: lines[k] == GridLine(k % 2 == 0, 2 * (k / 2) - 1)
  {
    if n == 0 then []
    else GridLines(n - 1) + [GridLine(true, 2 * (n - 1) - 1), GridLine(false, 2 * (n - 1) - 1)]
  }

  /** The ticks and their labels: x tick i reads file i, the y ticks 7..0 read "1".."8". */
  const AxisLabels: Draw := Labels(
    [0, 1, 2, 3, 4, 5, 6, 7], ["a", "b", "c", "d", "e", "f", "g", "h"],
    [7, 6, 5, 4, 3, 2, 1, 0], ["1", "2", "3", "4", "5", "6", "7", "8"])

  /** Reading an x label and a y label as a square name gives back the tick positions: the axes agree with the grid mapping. */
  lemma AxisLabelsAgreeWithGrid(i: int, j: int)
    requires 0 <= i < 8 && 0 <= j < 8
    ensures |AxisLabels.xLabels| == |AxisLabels.yLabels| == |AxisLabels.xTicks| == |AxisLabels.yTicks| == 8
    ensures SquareToGrid(AxisLabels.xLabels[i] + AxisLabels.yLabels[j]) == Some((AxisLabels.xTicks[i], AxisLabels.yTicks[j]))
  {
    assert AxisLabels.xLabels[i] + AxisLabels.yLabels[j] == GridToName(i, 7 - j);
    GridRoundTrip(i, 7 - j);
  }

  /** make_checkers: the parity (x + y) mod 2 of every cell, row y, column x. */
  function CheckerParity(): (parity: seq<seq<int>>)
    ensures |parity| == 8 && forall y | 0 <= y < 8 :: |parity[y]| == 8
  {
    seq(8, y => seq(8, x => (x + y) % 2))
  }

  /**
   * The checker shade of a cell depends only on the parity of x + y: cells
   * agree exactly when their parities do, so neighbours always differ, and
   * parity 1 falls on the dark squares (file and rank indices of even sum,
   * a1 among them).
   */
  lemma CheckerPattern(x: int, y: int, u: int, v: int, sq: Square)
    requires 0 <= x < 8 && 0 <= y < 8 && 0 <= u < 8 && 0 <= v < 8
    ensures CheckerParity()[y][x] in {0, 1}
    ensures CheckerParity()[y][x] == CheckerParity()[v][u] <==> (x + y) % 2 == (u + v) % 2
    ensures x + 1 < 8 ==> CheckerParity()[y][x] != CheckerParity()[y][x + 1]
    ensures y + 1 < 8 ==> CheckerParity()[y][x] != CheckerParity()[y + 1][x]
    ensures CheckerParity()[SquareY(sq)][SquareX(sq)] == 1 <==> (sq % 8 + sq / 8) % 2 == 0
  {
  }

  method MakeCheckers(ax: Axes)
    modifies ax
    ensures ax.draws == old(ax.draws) + [Checker(CheckerParity())]
  {
    ax.Add(Checker(CheckerParity()));
  }

  function CheckerLayers(checkers: bool): seq<Draw>
  {
    if checkers then [Checker(CheckerParity())] else []
  }

  /** Everything plot_board draws before the pieces. */
  function Background(checkers: bool): seq<Draw>
  {
    GridLines(8) + [AxisLabels] + CheckerLayers(checkers)
  }

  /** The glyph add_piece draws for one square, if it is occupied. */
  function SquareGlyphs(board: Board, sq: Square): seq<Draw>
  {
    match PieceAt(board, sq)
    case None => []
    case Some(p) => [Glyph(SquareX(sq), SquareY(sq), PieceGlyph(p), DefaultStyle)]
  }

  /** The glyphs of the squares of `order`, in that order. */
  function GlyphLayers(board: Board, order: seq<Square>): seq<Draw>
  {
    if order == [] then []
    else GlyphLayers(board, order[..|order| - 1]) + SquareGlyphs(board, order[|order| - 1])
  }

  /** plot_board(ax, board, checkers): background first, then one glyph per occupied square in SQUARES_180 order. */
  function BoardLayers(board: Board, checkers: bool): seq<Draw>
  {
    Background(checkers) + GlyphLayers(board, Squares180())
  }

  method PlotBoard(ax: Axes, board: Board, checkers: bool)
    modifies ax
    ensures ax.draws == old(ax.draws) + BoardLayers(board, checkers)
  {
    DrawGrid(ax);
    ghost var lines := ax.draws;
    ax.Add(AxisLabels);
    if checkers {
      MakeCheckers(ax);
    }
    BackgroundAppended(old(ax.draws), lines, ax.draws, checkers);
    ghost var background := ax.draws;
    DrawPieces(ax, board, Squares180());
    PiecesAppended(old(ax.draws), background, ax.draws, board, checkers);
  }

  /** The eight pairs of `axhline`/`axvline` calls of plot_board. */
  method DrawGrid(ax: Axes)
    modifies ax
    ensures ax.draws == old(ax.draws) + GridLines(8)
  {
    for i := 0 to 8
      invariant ax.draws == old(ax.draws) + GridLines(i)
    {
      ax.Add(GridLine(true, 2 * i - 1));
      ax.Add(GridLine(false, 2 * i - 1));
    }
  }

  /** The loop of plot_board that calls add_piece on every occupied square, in `order`. */
  method DrawPieces(ax: Axes, board: Board, order: seq<Square>)
    modifies ax
    ensures ax.draws == old(ax.draws) + GlyphLayers(board, order)
  {
    for k := 0 to |order|
      invariant ax.draws == old(ax.draws) + GlyphLayers(board, order[..k])
    {
      var square := order[k];
      var piece := PieceAt(board, square);
      ghost var before := ax.draws;
      if piece.Some? {
        AddPieceOnSquare(square, piece.value, DefaultStyle);
        var outcome := AddPiece(ax, SquareName(square), Symbol(piece.value), DefaultStyle);
      }
      assert ax.draws == before + SquareGlyphs(board, square);
      GlyphLayersStep(board, order, k);
    }
    assert order[..|order|] == order;
  }

  lemma BackgroundAppended(start: seq<Draw>, lines: seq<Draw>, background: seq<Draw>, checkers: bool)
    requires lines == start + GridLines(8)
    requires background == lines + [AxisLabels] + CheckerLayers(checkers)
    ensures background == start + Background(checkers)
  {
    var rest := [AxisLabels] + CheckerLayers(checkers);
    assert background == lines + rest;
    assert Background(checkers) == GridLines(8) + rest;
  }

  lemma PiecesAppended(start: seq<Draw>, background: seq<Draw>, all: seq<Draw>, board: Board, checkers: bool)
    requires background == start + Background(checkers)
    requires all == background + GlyphLayers(board, Squares180())
    ensures all == start + BoardLayers(board, checkers)
  {
  }

  lemma GlyphLayersStep(board: Board, order: seq<Square>, k: nat)
    requires k < |order|
    ensures GlyphLayers(board, order[..k + 1]) == GlyphLayers(board, order[..k]) + SquareGlyphs(board, order[k])
  {
    assert order[..k + 1][..k] == order[..k];
  }

  // ---------------------------------------------------------------------------
  // What plot_board's output looks like
  // ---------------------------------------------------------------------------

  /** The number of glyphs drawn at grid point (x, y). */
  function GlyphsAt(layers: seq<Draw>, x: int, y: int): nat
  {
    if layers == [] then 0
    else (if layers[0].Glyph? && layers[0].x == x && layers[0].y == y then 1 else 0) + GlyphsAt(layers[1..], x, y)
  }

  lemma {:induction false} GlyphsAtAppend(a: seq<Draw>, b: seq<Draw>, x: int, y: int)
    ensures GlyphsAt(a + b, x, y) == GlyphsAt(a, x, y) + GlyphsAt(b, x, y)
  {
    if a == [] {
      assert a + b == b;
    } else {
      assert (a + b)[0] == a[0];
      assert (a + b)[1..] == a[1..] + b;
      GlyphsAtAppend(a[1..], b, x, y);
    }
  }

  /**
   * Along any traversal order, the glyphs drawn at a grid point number the
   * visits to its square when that square is occupied, and zero when it is
   * empty.
   */
  lemma {:induction false} GlyphLayersCount(board: Board, order: seq<Square>, x: int, y: int)
    requires 0 <= x < 8 && 0 <= y < 8
    ensures GlyphsAt(GlyphLayers(board, order), x, y)
         == if PieceAt(board, GridSquare(x, y)).Some? then multiset(order)[GridSquare(x, y)] else 0
  {
    if order != [] {
      var init, last := order[..|order| - 1], order[|order| - 1];
      assert order == init + [last];
      GlyphLayersCount(board, init, x, y);
      GlyphsAtAppend(GlyphLayers(board, init), SquareGlyphs(board, last), x, y);
      SquareGridRoundTrip(last);
      GridSquareRoundTrip(x, y);
    }
  }

  /** Every layer of GlyphLayers is a glyph on the board, showing the piece on the square under it, in the default style. */
  lemma {:induction false} GlyphLayersShowPieces(board: Board, order: seq<Square>)
    ensures forall d | d in GlyphLayers(board, order) ::
      && d.Glyph? && 0 <= d.x < 8 && 0 <= d.y < 8 && d.style == DefaultStyle
      && PieceAt(board, GridSquare(d.x, d.y)).Some?
      && d.glyph == PieceGlyph(PieceAt(board, GridSquare(d.x, d.y)).value)
  {
    if order != [] {
      var last := order[|order| - 1];
      GlyphLayersShowPieces(board, order[..|order| - 1]);
      SquareGridRoundTrip(last);
    }
  }

  /** The background: 16 grid lines, the axis labels, the checker layer when asked for; no glyph among them. */
  lemma BackgroundShape(checkers: bool)
    ensures var background := Background(checkers);
      && |background| == (if checkers then 18 else 17)
      && (forall k | 0 <= k < 16 :: background[k] == GridLine(k % 2 == 0, 2 * (k / 2) - 1))
      && background[16] == AxisLabels
      && (checkers ==> background[17] == Checker(CheckerParity()))
      && (forall k | 0 <= k < |background| :: !background[k].Glyph?)
      && (forall k | 0 <= k < |background| :: background[k].Checker? <==> checkers && k == 17)
  {
    var lines := GridLines(8);
    assert forall k | 0 <= k < 16 :: lines[k].GridLine?;
  }

  /** Every layer GlyphLayers produces is a glyph. */
  lemma {:induction false} GlyphLayersAreGlyphs(board: Board, order: seq<Square>)
    ensures forall k | 0 <= k < |GlyphLayers(board, order)| :: GlyphLayers(board, order)[k].Glyph?
  {
    if order != [] {
      GlyphLayersAreGlyphs(board, order[..|order| - 1]);
    }
  }

  /**
   * The layer order of plot_board: 16 grid lines (horizontal and vertical
   * alternating), the axis labels, the checker layer exactly when asked for,
   * and after all of these nothing but glyphs.
   */
  lemma BoardLayersOrder(board: Board, checkers: bool)
    ensures var layers := BoardLayers(board, checkers);
      var n := if checkers then 18 else 17;
      && n <= |layers|
      && (forall k | 0 <= k < 16 :: layers[k] == GridLine(k % 2 == 0, 2 * (k / 2) - 1))
      && layers[16] == AxisLabels
      && (checkers ==> layers[17] == Checker(CheckerParity()))
      && (forall k | 0 <= k < |layers| :: layers[k].Glyph? <==> n <= k)
      && (forall k | 0 <= k < |layers| :: layers[k].Checker? <==> checkers && k == 17)
  {
    var background := Background(checkers);
    var glyphs := GlyphLayers(board, Squares180());
    BackgroundShape(checkers);
    GlyphLayersAreGlyphs(board, Squares180());
    var layers := background + glyphs;
    assert layers == BoardLayers(board, checkers);
    forall k | 0 <= k < |layers|
      ensures (layers[k].Glyph? <==> |background| <= k) && (layers[k].Checker? <==> checkers && k == 17)
    {
      if k < |background| {
        assert layers[k] == background[k];
      } else {
        assert layers[k] == glyphs[k - |background|];
      }
    }
  }

  /** plot_board draws exactly one glyph on every occupied square and none on an empty one. */
  lemma BoardGlyphsOnePerOccupiedSquare(board: Board, checkers: bool, x: int, y: int)
    requires 0 <= x < 8 && 0 <= y < 8
    ensures GlyphsAt(BoardLayers(board, checkers), x, y) == if PieceAt(board, GridSquare(x, y)).Some? then 1 else 0
  {
    Squares180VisitsEachSquareOnce();
    GlyphLayersCount(board, Squares180(), x, y);
    GlyphsAtAppend(Background(checkers), GlyphLayers(board, Squares180()), x, y);
    BackgroundHasNoGlyphs(checkers, x, y);
  }

  lemma BackgroundHasNoGlyphs(checkers: bool, x: int, y: int)
    ensures GlyphsAt(Background(checkers), x, y) == 0
  {
    var background := Background(checkers);
    forall k | 0 <= k <= |background| ensures GlyphsAt(background[k..], x, y) == 0 {
      BackgroundSuffixHasNoGlyphs(checkers, k, x, y);
    }
    assert background[0..] == background;
  }

  lemma {:induction false} BackgroundSuffixHasNoGlyphs(checkers: bool, k: nat, x: int, y: int)
    requires k <= |Background(checkers)|
    ensures GlyphsAt(Background(checkers)[k..], x, y) == 0
    decreases |Background(checkers)| - k
  {
    var background := Background(checkers);
    if k < |background| {
      BackgroundSuffixHasNoGlyphs(checkers, k + 1, x, y);
      assert background[k..][1..] == background[k + 1..];
      assert !background[k].Glyph?;
    }
  }

  /** plot_board draws no arrow and no square outline. */
  lemma BoardLayersDrawNoMove(board: Board, checkers: bool)
    ensures var layers := BoardLayers(board, checkers);
      forall k | 0 <= k < |layers| :: !layers[k].Arrow? && !layers[k].Rect?
  {
    var background := Background(checkers);
    var glyphs := GlyphLayers(board, Squares180());
    var layers := background + glyphs;
    BackgroundShape(checkers);
    GlyphLayersAreGlyphs(board, Squares180());
    forall k | 0 <= k < |layers|
      ensures !layers[k].Arrow? && !layers[k].Rect?
    {
      if k >= |background| {
        assert layers[k] == glyphs[k - |background|];
      } else if k < 16 {
        assert layers[k] == background[k];
      }
    }
  }
}
