# chessplotlib in Dafny

chessplotlib draws chess positions on a matplotlib `Axes`. It has four parts:
- a square grid with rank and file labels, and an optional checker pattern;
- one Unicode glyph per piece;
- arrows and red outlines that show a move;
- a PGN viewer that steps through the positions of a game with the arrow keys.

This project models that core, `chessplotlib/plot.py` and `chessplotlib/pgn.py`, and proves properties of the model.

The axes is modelled as the class `Drawing.Axes`. It holds an append-only list of drawing commands (`Drawing.Draw`), one per matplotlib call that puts something on the axes:
- `GridLine`: `axhline`/`axvline`;
- `Labels`: the tick positions and tick labels;
- `Checker`: the `imshow` of `make_checkers`;
- `Glyph`: `ax.text`;
- `Arrow`: `ax.arrow`;
- `Rect`: the red `Rectangle` patch.

Coordinates that the source offsets by -0.5 are kept in half-units (twice the coordinate). A grid line at `i - 0.5` is therefore stored as `2i - 1`.

A Python exception in the middle of a drawing call is modelled as `Emitted(layers, outcome)`:
- `layers` is what was already appended to the axes when the exception was raised;
- `outcome` is `Completed` or `Raised(error)`.

Each drawing function has two parts in the model:
- a specification function that gives the layers it appends and, where it can raise, its outcome (`AddPieceEffect`, `AddArrowEffect`, `MarkSquareEffect`, `PlotMoveEffect`, `MarkMoveLayers`, `BoardLayers`);
- a method taking the `Axes` that follows the source statement by statement and is proved to append exactly the layers its function gives and to return that outcome. `make_checkers` appends its one checker layer directly.

Separate lemmas state what each effect means:
- when the call raises, and that nothing is drawn on a raise;
- where each glyph, arrow and outline lands, using grid/name round trips;
- that `plot_board` draws the background first and then exactly one glyph per occupied square.

The python-chess types the core uses are modelled as values in `Chess`:
- squares 0..63 with their names;
- the `SQUARES_180` order;
- pieces and their symbols;
- moves;
- boards as maps from square to piece.

`Board.push` belongs to python-chess, so the viewer receives it as a function parameter.

Modules:
- `Wrappers`: `Option` and `IndexOf`, which models Python's `list.index`.
- `Chess`: the python-chess stand-ins.
- `Grid`: `_square_to_grid` and its inverse.
- `Glyphs`: the `SYMBOLS` table.
- `Drawing`: the `plot.py` drawing functions.
- `Viewer`: `PGNViewer` from `chessplotlib/pgn.py`. `chessplotlib/plot.py:266-296` is a copy of it, line for line.

## Model

| member | source | states |
|---|---|---|
| Wrappers.IndexOf | chessplotlib/plot.py:52-53 | `list.index`: a result exists iff the element is in the list; the result is the position of its first occurrence |
| Chess.SquareNameInjective | chessplotlib/plot.py:209 | two squares with the same name are the same square |
| Chess.IndexOfSquareName | chessplotlib/plot.py:209 | `SQUARE_NAMES.index(name of sq)` is `sq`, so `plot_move` looks up the origin square of the move |
| Chess.MirrorInvolution | chessplotlib/plot.py:179 | mirroring a square twice returns the square |
| Chess.MirrorSwap | chessplotlib/plot.py:179 | square i mirrors to sq exactly when sq mirrors to i |
| Chess.Squares180VisitsEachSquareOnce | chessplotlib/plot.py:179 | `SQUARES_180` has 64 entries and contains each square exactly once |
| Chess.Squares180TailCount | chessplotlib/plot.py:179 | the tail of `SQUARES_180` from position i holds square sq once iff sq's mirror image is at least i |
| Chess.Symbol | chessplotlib/plot.py:182 | `piece.symbol()` is one of the twelve letters KQRBNPkqrbnp |
| Chess.SymbolInjective | chessplotlib/plot.py:182 | different pieces have different symbols |
| Grid.LookupListsConsecutive | chessplotlib/plot.py:52-53 | the two lookup lists of `_square_to_grid` are consecutive characters: files ascending from 'a', ranks descending from '8' |
| Grid.FileIndexIsListIndex | chessplotlib/plot.py:53 | the arithmetic file lookup equals `["a",…,"h"].index(c)`, including the missing-value case |
| Grid.RankIndexIsListIndex | chessplotlib/plot.py:52 | the arithmetic rank lookup equals `["8",…,"1"].index(c)`, including the missing-value case |
| Grid.SquareToGrid | chessplotlib/plot.py:46-54 | `_square_to_grid` succeeds iff the string has at least two characters, a file letter and then a rank digit; x is the file index from 'a'; y counts ranks down from '8' |
| Grid.GridRoundTrip | chessplotlib/plot.py:46-54 | naming a grid point and converting the name back gives the same point |
| Grid.NameRoundTrip | chessplotlib/plot.py:46-54 | a valid two-character name survives conversion to the grid and back |
| Grid.SquareToGridOfName | chessplotlib/plot.py:46-54 | the grid point of a square's name is (file, 7 - rank) |
| Grid.SquareGridRoundTrip | chessplotlib/plot.py:46-54 | square to grid point and back is the identity; the point lies on the 8x8 grid |
| Grid.GridSquareRoundTrip | chessplotlib/plot.py:46-54 | grid point to square and back is the identity; the square's name is the point's name |
| Glyphs.SymbolTableDomain | chessplotlib/plot.py:11-24 | the keys of `SYMBOLS` are exactly the twelve letters KQRBNPkqrbnp |
| Glyphs.SymbolTableCodes | chessplotlib/plot.py:11-24 | the glyph of the i-th key starts with code point U+2654 + i: white pieces U+2654..U+2659, black U+265A..U+265F |
| Glyphs.SymbolKeysDistinct | chessplotlib/plot.py:11-24 | no key of `SYMBOLS` is listed twice |
| Glyphs.SymbolTableSize | chessplotlib/plot.py:11-24 | `SYMBOLS` has twelve entries |
| Glyphs.GlyphsDistinct | chessplotlib/plot.py:11-24 | distinct keys map to distinct glyphs |
| Glyphs.KeyPieceSymbol | chessplotlib/plot.py:11-24 | each key of the table is the symbol of the piece it draws |
| Glyphs.SymbolTableCoversPieces | chessplotlib/plot.py:11-24 | every piece's symbol is a key; every key is some piece's symbol |
| Glyphs.PieceGlyph | chessplotlib/plot.py:96 | `SYMBOLS[piece.symbol()]` is defined for every piece |
| Glyphs.PieceGlyphInjective | chessplotlib/plot.py:11-24 | different pieces are drawn with different glyphs |
| Drawing.AddPiece | chessplotlib/plot.py:71-102 | appends exactly the layers of the effect and returns its outcome |
| Drawing.AddPieceOutcome | chessplotlib/plot.py:92-102 | `add_piece` completes iff the square is valid and the string is a piece symbol; an invalid square raises first; nothing is drawn on a raise; on success one glyph of that piece at the square's grid point, in the caller's style |
| Drawing.AddPieceOnSquare | chessplotlib/plot.py:179-182 | a piece added on a real square's name draws its glyph at that square's grid point and completes |
| Drawing.AddArrow | chessplotlib/plot.py:105-143 | appends exactly the layers of the effect and returns its outcome |
| Drawing.AddArrowOutcome | chessplotlib/plot.py:131-143 | `add_arrow` completes iff both squares are valid; nothing is drawn on a raise; on success one arrow in the caller's style, starting at the origin's grid point, whose start plus displacement is the destination's grid point |
| Drawing.CellOutline | chessplotlib/plot.py:232-236 | the rectangle's corner is half a cell up and left of the square's grid point |
| Drawing.CellOutlineFramesSquare | chessplotlib/plot.py:232-236 | the unit cell the outline frames belongs to exactly the square that was marked |
| Drawing.MarkSquare | chessplotlib/plot.py:221-245 | appends exactly the layers of the effect and returns its outcome |
| Drawing.MarkSquareOutcome | chessplotlib/plot.py:232-245 | `mark_square` completes iff the name is valid; nothing is drawn on a raise; on success one outline around the named square |
| Drawing.MarkSquareOnSquare | chessplotlib/plot.py:221-245 | marking a real square's name outlines that square |
| Drawing.FromSquareName | chessplotlib/plot.py:27-31 | `_from_square` gives a name whose grid point is the move's origin |
| Drawing.ToSquareName | chessplotlib/plot.py:34-43 | `_to_square` gives a name whose grid point is the destination; the promotion text is empty iff the move has no promotion, and otherwise it is the piece letter |
| Drawing.MoveArrow | chessplotlib/plot.py:134-138 | the move's arrow starts at the origin; start plus displacement is the destination |
| Drawing.AddArrowOnSquares | chessplotlib/plot.py:217 | `add_arrow` on a move's two square names draws the move's arrow and completes |
| Drawing.PlotMove | chessplotlib/plot.py:185-218 | appends exactly the layers of the as-written effect and returns its outcome |
| Drawing.PlotMoveOutcome | chessplotlib/plot.py:206-218 | as written, `plot_move` always draws the arrow first; it completes iff the move has no promotion and the origin is occupied; otherwise the arrow is all it draws before raising |
| Drawing.IntendedPlotMoveDrawsArrivingPiece | chessplotlib/plot.py:212-218 | corrected: from an occupied origin, the arrow plus the glyph of the arriving piece at the destination; a promotion shows the promoted piece in the mover's colour; without a promotion this is what the source draws |
| Drawing.PromotionRaisesAsWritten | chessplotlib/plot.py:212-218 | e7e8q with a white pawn: as written, arrow and then a raise; corrected, arrow plus a white queen on e8 |
| Drawing.MarkMove | chessplotlib/plot.py:248-263 | appends the origin's outline and then the destination's |
| Drawing.MarkMoveFramesBothSquares | chessplotlib/plot.py:248-263 | `mark_move` draws two outlines, framing exactly the origin and the destination of the move |
| Drawing.GridLines | chessplotlib/plot.py:161-163 | 2n lines that alternate horizontal and vertical, pair i at i - 0.5 |
| Drawing.DrawGrid | chessplotlib/plot.py:161-163 | the loop appends the 16 grid lines |
| Drawing.AxisLabelsAgreeWithGrid | chessplotlib/plot.py:167-171 | the labels of x tick i and y tick j spell the square whose grid point is (tick i, tick j) |
| Drawing.CheckerParity | chessplotlib/plot.py:66-67 | the checker image is 8 by 8 |
| Drawing.CheckerPattern | chessplotlib/plot.py:66-67 | every cell is 0 or 1; two cells are equal iff their coordinate sums have the same parity; neighbours differ; a square's cell is dark iff the square is dark |
| Drawing.MakeCheckers | chessplotlib/plot.py:57-68 | appends the checker image |
| Drawing.PlotBoard | chessplotlib/plot.py:146-182 | appends exactly the board's layers: grid, labels, optional checkers, then the pieces in `SQUARES_180` order |
| Drawing.DrawPieces | chessplotlib/plot.py:179-182 | the loop over the squares appends one glyph per occupied square, in the order given |
| Drawing.GlyphLayersStep | chessplotlib/plot.py:179-182 | one more square visited adds exactly that square's glyph, if any |
| Drawing.GlyphLayersCount | chessplotlib/plot.py:179-182 | the glyphs drawn at a grid point number as many as the visits to its square if that square is occupied, and none otherwise |
| Drawing.GlyphLayersShowPieces | chessplotlib/plot.py:179-182 | every glyph drawn is on the grid, in the default style, on an occupied square, and shows that square's piece |
| Drawing.BackgroundShape | chessplotlib/plot.py:159-174 | the background is the 16 grid lines, then the labels, then the checker image iff requested; it has no glyphs |
| Drawing.BoardLayersOrder | chessplotlib/plot.py:146-182 | in the full board drawing a layer is a glyph iff it comes after the background; the only checker layer is the one after the labels, when requested |
| Drawing.BoardGlyphsOnePerOccupiedSquare | chessplotlib/plot.py:146-182 | `plot_board` draws exactly one glyph on each occupied square and none on an empty one |
| Drawing.BoardLayersDrawNoMove | chessplotlib/plot.py:146-182 | `plot_board` draws no arrow and no outline |
| Viewer.TimelineSteps | chessplotlib/pgn.py:11-15 | the first snapshot is the start position; snapshot j+1 is snapshot j with move j pushed; the last is the position after every move |
| Viewer.NextSnapshot | chessplotlib/pgn.py:13-15 | one more move pushed adds exactly one snapshot, the new position |
| Viewer.WorkingBoard.Push | chessplotlib/pgn.py:14 | `board.push(move)` replaces the working position by the pushed one |
| Viewer.Snapshots | chessplotlib/pgn.py:11-15 | the loop produces the timeline of the game: one copy before the first move and one after each move |
| Viewer.PgnViewer.constructor | chessplotlib/pgn.py:9-23 | the viewer holds the game's timeline, shows index 0, and has drawn the starting position with checkers onto the axes |
| Viewer.KeyStep | chessplotlib/pgn.py:26-30 | "left" steps -1, "right" steps +1, any other key 0 |
| Viewer.Clip | chessplotlib/pgn.py:33 | `np.clip` stays within the bounds, keeps a value already inside them, gives `lo` for a value below the range and `hi` for one above it |
| Viewer.NextIndexInRange | chessplotlib/pgn.py:25-33 | a key press keeps the index inside the snapshot list |
| Viewer.PressRight | chessplotlib/pgn.py:29-33 | right advances one snapshot, except on the last one, where it stays |
| Viewer.PressLeft | chessplotlib/pgn.py:26-33 | left goes back one snapshot, except on the first one, where it stays |
| Viewer.PressOtherKey | chessplotlib/pgn.py:25-33 | other keys leave the index unchanged |
| Viewer.PressRoundTrips | chessplotlib/pgn.py:25-33 | away from the ends, right then left and left then right return to the same snapshot |
| Viewer.PressAllInRange | chessplotlib/pgn.py:25-33 | no sequence of key presses leaves the snapshot list |
| Viewer.PressRightRepeatedly | chessplotlib/pgn.py:29-33 | k presses of right from index i show snapshot i + k, or the last one |
| Viewer.PgnViewer.Press | chessplotlib/pgn.py:25-38 | the index moves by the key and is clipped; the axes then hold only the selected snapshot's board with checkers, with no move drawn |

## Left out

- Floating-point details are not modelled: the 0.05 vertical offset of glyphs and arrow starts, the checker shade `(parity + 0.3) / 2`, font size, alignment, `head_width`, `zorder`, line widths and colours of the grid and outlines. Coordinates are integers in half-units; the checker image is kept as its 0/1 parity.
- `set_xlim`, `set_ylim` and `tick_params` change axis settings and draw nothing, so they are not modelled. The unused `meshgrid`/`locs` computation in `plot_board` is left out too.
- Figure plumbing is not modelled: `fig`, `mpl_connect`, `flush_events`, `canvas.draw`, `plt.subplots` and `plt.show`. `pgn_viewer` and the `__main__` block are not modelled; they only create a figure and call the modelled functions. `pgn_viewer` uses `plt`, which `chessplotlib/pgn.py` never imports; that is a runtime concern outside the model.
- `Board.push` is a parameter, so the rules of chess are not modelled. A push that python-chess rejects (an illegal move) is therefore not modelled either; the viewer takes moves from a parsed game's main line.
- `SQUARES_180` and `SQUARE_NAMES` are defined here as python-chess defines them (mirror order; file letter then rank digit), because python-chess is not part of this model.
- Snapshots are immutable values, so `copy.copy` is implicit. The model does not capture aliasing between the working board and the snapshots.
- The viewer handles no quit key, and after a key press it redraws only the board; it draws no arrow for the move just played.
- `plot_board` draws the grid lines and labels before the checker image. That is the order of the calls in the source; matplotlib's own layering by `zorder` is not modelled.
- Drawing.AddPieceOutcome: a square string longer than two characters is accepted and only its first two characters are read, as in the source. The model states this; it does not reject such strings.
- Drawing.PlotMove: the style's alpha and colour are carried through as values; their visual effect is not modelled.

## Findings

| source | as written | input that shows it | evidently intended | confidence | as-written member | corrected member |
|---|---|---|---|---|---|---|
| chessplotlib/plot.py:212-218 | for a promotion, `to_piece` becomes the promotion letter (a `str`), and `to_piece.symbol()` raises after the arrow has been drawn | a white pawn on e7 with the move e7e8q | draw the promoted piece, in the mover's colour, on the destination | not executed | Drawing.PromotionRaisesAsWritten | Drawing.IntendedPlotMoveDrawsArrivingPiece |
