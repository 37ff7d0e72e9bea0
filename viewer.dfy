/**
 * The PGN viewer: a list of board snapshots, one per ply of the game's main
 * line, and an index into it that the left and right arrow keys move, clipped
 * to the ends of the list. Every key press clears the axes and replots the
 * selected board with the checker pattern.
 */
module Viewer {
  import opened Chess
  import opened Drawing

  /**
   * What the viewer reads from a parsed game: the position the game starts
   * from (`game.board()`) and its main-line moves (`game.mainline_moves()`).
   */
  datatype Game = Game(start: Board, moves: seq<Move>)

  /**
   * The position after playing `moves` from `start`, where `push` stands for
   * the chess library's `Board.push` (its rules are not part of this model).
   */
  function ApplyAll(start: Board, moves: seq<Move>, push: (Board, Move) -> Board): Board
    decreases |moves|
  {
    if moves == [] then start
    else push(ApplyAll(start, moves[..|moves| - 1], push), moves[|moves| - 1])
  }

  /** Snapshot j is the position after the first j moves. */
  function Timeline(start: Board, moves: seq<Move>, push: (Board, Move) -> Board): (boards: seq<Board>)
    ensures |boards| == |moves| + 1
  {
    seq(|moves| + 1, j requires 0 <= j <= |moves| => ApplyAll(start, moves[..j], push))
  }

  /** The snapshots start at the initial position and each one is its predecessor with one more move pushed. */
  lemma TimelineSteps(start: Board, moves: seq<Move>, push: (Board, Move) -> Board)
    ensures Timeline(start, moves, push)[0] == start
    ensures forall j | 0 <= j < |moves| ::
      Timeline(start, moves, push)[j + 1] == push(Timeline(start, moves, push)[j], moves[j])
    ensures Timeline(start, moves, push)[|moves|] == ApplyAll(start, moves, push)
  {
    var boards := Timeline(start, moves, push);
    assert moves[..0] == [];
    forall j | 0 <= j < |moves|
      ensures boards[j + 1] == push(boards[j], moves[j])
    {
      var prefix := moves[..j + 1];
      assert prefix[..|prefix| - 1] == moves[..j];
      assert prefix[|prefix| - 1] == moves[j];
    }
    assert moves[..|moves|] == moves;
  }

  /** The board the constructor pushes moves onto in place (the object `game.board()` returns). */
  class WorkingBoard {
    var position: Board

    constructor (start: Board)
      ensures position == start
    {
      position := start;
    }

    /** board.push(move) */
    method Push(m: Move, push: (Board, Move) -> Board)
      modifies this
      ensures position == push(old(position), m)
    {
      position := push(position, m);
    }
  }

  /** The step a key press applies to the index before clipping. */
  function KeyStep(key: string): (step: int)
    ensures key == "left" ==> step == -1
    ensures key == "right" ==> step == 1
    ensures key != "left" && key != "right" ==> step == 0
  {
    (if key == "left" then -1 else 0) + (if key == "right" then 1 else 0)
  }

  /** np.clip(v, lo, hi): the minimum of hi and the maximum of v and lo. */
  function Clip(v: int, lo: int, hi: int): (r: int)
    ensures lo <= hi ==> lo <= r <= hi
    ensures lo <= v <= hi ==> r == v
    ensures r == lo || r == hi || r == v
    ensures v < lo <= hi ==> r == lo
    ensures lo <= hi < v ==> r == hi
  {
    var low := if v < lo then lo else v;
    if low > hi then hi else low
  }

  /** The index after pressing `key` on a viewer holding `n` snapshots. */
  function NextIndex(idx: int, key: string, n: int): int
  {
    Clip(idx + KeyStep(key), 0, n - 1)
  }

  /** A press keeps the index within the list, whatever the key. */
  lemma NextIndexInRange(idx: int, key: string, n: int)
    requires 0 <= idx < n
    ensures 0 <= NextIndex(idx, key, n) < n
  {
  }

  /** Right moves one snapshot forward, except on the last one, where it stays. */
  lemma PressRight(idx: int, n: int)
    requires 0 <= idx < n
    ensures idx < n - 1 ==> NextIndex(idx, "right", n) == idx + 1
    ensures idx == n - 1 ==> NextIndex(idx, "right", n) == idx
  {
  }

  /** Left moves one snapshot back, except on the first one, where it stays. */
  lemma PressLeft(idx: int, n: int)
    requires 0 <= idx < n
    ensures idx > 0 ==> NextIndex(idx, "left", n) == idx - 1
    ensures idx == 0 ==> NextIndex(idx, "left", n) == 0
  {
  }

  /** Any other key leaves the index where it is (the board is still replotted). */
  lemma PressOtherKey(idx: int, key: string, n: int)
    requires 0 <= idx < n
    requires key != "left" && key != "right"
    ensures NextIndex(idx, key, n) == idx
  {
  }

  /** Away from the ends, right then left, and left then right, come back to the same snapshot. */
  lemma PressRoundTrips(idx: int, n: int)
    requires 0 <= idx < n
    ensures idx < n - 1 ==> NextIndex(NextIndex(idx, "right", n), "left", n) == idx
    ensures idx > 0 ==> NextIndex(NextIndex(idx, "left", n), "right", n) == idx
  {
    PressRight(idx, n);
    PressLeft(idx, n);
    if idx < n - 1 {
      PressLeft(idx + 1, n);
    }
    if idx > 0 {
      PressRight(idx - 1, n);
    }
  }

  /** The index after a whole sequence of key presses. */
  function PressAll(idx: int, keys: seq<string>, n: int): int
    decreases |keys|
  {
    if keys == [] then idx else PressAll(NextIndex(idx, keys[0], n), keys[1..], n)
  }

  /** No sequence of presses leaves the list of snapshots. */
  lemma {:induction false} PressAllInRange(idx: int, keys: seq<string>, n: int)
    requires 0 <= idx < n
    ensures 0 <= PressAll(idx, keys, n) < n
    decreases |keys|
  {
    if keys != [] {
      NextIndexInRange(idx, keys[0], n);
      PressAllInRange(NextIndex(idx, keys[0], n), keys[1..], n);
    }
  }

  /** Pressing right k times from snapshot idx shows snapshot idx + k, or the last one if the game is shorter. */
  lemma {:induction false} PressRightRepeatedly(idx: int, k: nat, n: int)
    requires 0 <= idx < n
    ensures PressAll(idx, seq(k, _ => "right"), n) == if idx + k < n then idx + k else n - 1
    decreases k
  {
    if k > 0 {
      var keys := seq(k, _ => "right");
      assert keys[0] == "right";
      assert keys[1..] == seq(k - 1, _ => "right");
      PressRight(idx, n);
      PressRightRepeatedly(NextIndex(idx, "right", n), k - 1, n);
    }
  }

  /**
   * The loop of the viewer's constructor: pushes every main-line move onto a
   * working board and keeps a copy of the position before the first move and
   * after each move.
   */
  method Snapshots(game: Game, push: (Board, Move) -> Board) returns (snapshots: seq<Board>)
    ensures snapshots == Timeline(game.start, game.moves, push)
  {
    var board := new WorkingBoard(game.start);
    snapshots := [board.position];
    assert game.moves[..0] == [];
    for i := 0 to |game.moves|
      invariant snapshots == Timeline(game.start, game.moves[..i], push)
      invariant board.position == ApplyAll(game.start, game.moves[..i], push)
    {
      board.Push(game.moves[i], push);
      snapshots := snapshots + [board.position];
      NextSnapshot(game.start, game.moves, i, push);
    }
    assert game.moves[..|game.moves|] == game.moves;
  }

  /** The viewer: its axes, the snapshots of the game and the index of the one on show. */
  class PgnViewer {
    const ax: Axes
    const boards: seq<Board>
    var idx: int

    ghost predicate Valid()
      reads this
    {
      |boards| >= 1 && 0 <= idx < |boards|
    }

    /** Takes the snapshots of the game, then plots the first one with the checker pattern. */
    constructor (ax: Axes, game: Game, push: (Board, Move) -> Board)
      modifies ax
      ensures Valid()
      ensures this.ax == ax
      ensures boards == Timeline(game.start, game.moves, push)
      ensures idx == 0
      ensures ax.draws == old(ax.draws) + BoardLayers(game.start, true)
    {
      var snapshots := Snapshots(game, push);
      TimelineSteps(game.start, game.moves, push);
      this.ax := ax;
      boards := snapshots;
      idx := 0;
      new;
      PlotBoard(ax, boards[idx], true);
    }

    /**
     * The key handler: left and right move the index, which is then clipped
     * to the list; the axes are cleared and the selected snapshot replotted.
     */
    method Press(key: string)
      requires Valid()
      modifies this, ax
      ensures Valid()
      ensures idx == NextIndex(old(idx), key, |boards|)
      ensures ax.draws == BoardLayers(boards[idx], true)
      ensures forall k | 0 <= k < |ax.draws| :: !ax.draws[k].Arrow? && !ax.draws[k].Rect?
    {
      if key == "left" {
        idx := idx - 1;
      }
      if key == "right" {
        idx := idx + 1;
      }
      idx := Clip(idx, 0, |boards| - 1);
      ax.Clear();
      PlotBoard(ax, boards[idx], true);
      BoardLayersDrawNoMove(boards[idx], true);
    }
  }

  /** Extending the prefix of moves by one extends the timeline by the pushed position. */
  lemma NextSnapshot(start: Board, moves: seq<Move>, i: nat, push: (Board, Move) -> Board)
    requires i < |moves|
    ensures ApplyAll(start, moves[..i + 1], push) == push(ApplyAll(start, moves[..i], push), moves[i])
    ensures Timeline(start, moves[..i + 1], push)
         == Timeline(start, moves[..i], push) + [ApplyAll(start, moves[..i + 1], push)]
  {
    var next := moves[..i + 1];
    assert next[..|next| - 1] == moves[..i];
    var a := Timeline(start, moves[..i + 1], push);
    var b := Timeline(start, moves[..i], push) + [ApplyAll(start, moves[..i + 1], push)];
    forall j | 0 <= j < |a|
      ensures a[j] == b[j]
    {
      if j <= i {
        assert next[..j] == moves[..j];
        assert moves[..i][..j] == moves[..j];
      } else {
        assert next[..j] == next;
      }
    }
  }
}
