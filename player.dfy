/**
 * `RandomPlayer` (src/player/randomplayer.rs): a board, the list of moves sent to it, and a
 * random choice among the empty cells.  The random generator is a parameter: each call of
 * `generate_move` receives a number `draw`, and the cell chosen is `draw` modulo the number
 * of empty cells.  The pure functions give the player's state as a value; the class
 * `RandomPlayer` updates a `HexBoard.Board` in place and is proved to follow them.
 */
module Players {
  import opened Wrappers
  import opened Hex
  import opened Layout
  import opened BoardSpec
  import opened Connectivity
  import opened HexBoard

  datatype PlayerState = PlayerState(board: BoardState, moves: seq<Move>)

  predicate PlayerWellFormed(s: PlayerState) {
    WellFormed(s.board)
  }

  /** `RandomPlayer::new`: an empty 13x13 board, no moves. */
  function NewPlayer(): (s: PlayerState)
    ensures PlayerWellFormed(s) && s.moves == [] && s.board.dims == Pos(13, 13) && s.board.toPlay == Black
    ensures forall p :: OnBoard(s.board.dims, p) ==> StoneAt(s.board, p) == None
  {
    PlayerState(EmptyBoard(Pos(13, 13)), [])
  }

  /** `name` and `version`. */
  const Name: string := "coronene"
  const Version: string := "0.000000000000001"

  /** What the board demands of a move: a stone must be placed on the board. */
  predicate Playable(s: PlayerState, m: Move) {
    m.Play? ==> OnBoard(s.board.dims, m.pos)
  }

  /** `play_move`: the move is recorded whether or not the board accepts it. */
  function PlayMoveResult(s: PlayerState, m: Move): (r: (bool, PlayerState))
    requires PlayerWellFormed(s) && Playable(s, m)
    ensures PlayerWellFormed(r.1) && r.1.board.dims == s.board.dims
    ensures r.1.moves == s.moves + [m]
    ensures r.0 <==> !m.Play? || StoneAt(s.board, m.pos) == None
    ensures !r.0 || !m.Play? ==> r.1.board == s.board
    ensures r.0 && m.Play? ==>
      && StoneAt(r.1.board, m.pos) == Some(m.color)
      && r.1.board.toPlay == Invert(m.color)
      && forall q :: OnBoard(s.board.dims, q) && q != m.pos ==> StoneAt(r.1.board, q) == StoneAt(s.board, q)
  {
    var (ok, b) := PlayBoard(s.board, m);
    (ok, PlayerState(b, s.moves + [m]))
  }

  /** `undo` can run: the last move, if it placed a stone, names a cell of the current board. */
  predicate UndoOk(s: PlayerState) {
    |s.moves| > 0 && s.moves[|s.moves| - 1].Play? ==> OnBoard(s.board.dims, s.moves[|s.moves| - 1].pos)
  }

  /**
   * `undo`: the last move is dropped and, if it placed a stone, that cell is cleared.
   * The side to play is not put back.
   */
  function UndoResult(s: PlayerState): (r: PlayerState)
    requires PlayerWellFormed(s) && UndoOk(s)
    ensures PlayerWellFormed(r) && r.board.dims == s.board.dims && r.board.toPlay == s.board.toPlay
    ensures s.moves == [] ==> r == s
    ensures s.moves != [] ==> r.moves == s.moves[..|s.moves| - 1]
    ensures s.moves != [] && !s.moves[|s.moves| - 1].Play? ==> r.board == s.board
    ensures s.moves != [] && s.moves[|s.moves| - 1].Play? ==>
      var p := s.moves[|s.moves| - 1].pos;
      && StoneAt(r.board, p) == None
      && forall q :: OnBoard(s.board.dims, q) && q != p ==> StoneAt(r.board, q) == StoneAt(s.board, q)
  {
    if s.moves == [] then s
    else
      var m := s.moves[|s.moves| - 1];
      var rest := s.moves[..|s.moves| - 1];
      if m.Play? then PlayerState(SetCell(s.board, m.pos, None), rest)
      else PlayerState(s.board, rest)
  }

  /** The move `generate_move` picks: resign when the board is full, else the `draw`-th empty cell. */
  function ChooseMove(empties: seq<Pos>, color: Color, draw: nat): (m: Move)
    ensures m == Resign <==> empties == []
    ensures m != Resign ==> m.Play? && m.color == color && m.pos in empties
  {
    if empties == [] then Resign else Play(color, empties[draw % |empties|])
  }

  /**
   * `generate_move`: resign, recording nothing, once someone has won; otherwise choose a
   * move as `ChooseMove` does and play it as `play_move` does.
   */
  ghost function GenerateMoveResult(s: PlayerState, color: Color, draw: nat): (r: (Move, PlayerState))
    requires PlayerWellFormed(s)
    ensures PlayerWellFormed(r.1) && Playable(s, r.0)
    ensures Winner(s.board).Some? ==> r == (Resign, s)
    ensures Winner(s.board).None? ==>
      && (r.0 == Resign <==> EmptyList(s.board) == [])
      && (r.0 != Resign ==> r.0.Play? && r.0.color == color && StoneAt(s.board, r.0.pos) == None)
      && r.1 == PlayMoveResult(s, r.0).1
  {
    if Winner(s.board).Some? then (Resign, s)
    else
      var m := ChooseMove(EmptyList(s.board), color, draw);
      (m, PlayMoveResult(s, m).1)
  }

  /** `set_board_size`: a new empty board of the given size; the recorded moves stay. */
  function SetBoardSizeResult(s: PlayerState, cols: Coord, rows: Coord): (r: PlayerState)
    ensures PlayerWellFormed(r) && r.board.dims == Pos(cols, rows) && r.board.toPlay == Black
    ensures forall p :: OnBoard(r.board.dims, p) ==> StoneAt(r.board, p) == None
    ensures r.moves == s.moves
  {
    PlayerState(EmptyBoard(Pos(cols, rows)), s.moves)
  }

  // ---- properties of the player ----

  /** Undoing an accepted stone gives back the board and the move list; only the side to play stays changed. */
  lemma PlayUndoRestores(s: PlayerState, c: Color, p: Pos)
    requires PlayerWellFormed(s) && OnBoard(s.board.dims, p) && StoneAt(s.board, p) == None
    ensures PlayMoveResult(s, Play(c, p)).0
    ensures UndoResult(PlayMoveResult(s, Play(c, p)).1) == s.(board := s.board.(toPlay := Invert(c)))
  {
    var s1 := PlayMoveResult(s, Play(c, p)).1;
    var r := UndoResult(s1);
    assert r.moves == s.moves;
    forall i | 0 <= i < |s.board.cells| ensures r.board.cells[i] == s.board.cells[i] {
      var q := PosOfIndex(s.board.dims, i);
      assert StoneAt(r.board, q) == StoneAt(s.board, q);
    }
  }

  /** Undoing a pass or a resignation gives back exactly the state before it. */
  lemma NonPlayUndoRestores(s: PlayerState, m: Move)
    requires PlayerWellFormed(s) && !m.Play?
    ensures UndoResult(PlayMoveResult(s, m).1) == s
  {
    assert (s.moves + [m])[..|s.moves|] == s.moves;
  }

  /**
   * A stone refused because its cell is taken is still recorded, so the `undo` after it
   * clears the stone that was already there.
   */
  lemma UndoAfterRejectedPlay(s: PlayerState, c: Color, p: Pos)
    requires PlayerWellFormed(s) && OnBoard(s.board.dims, p) && StoneAt(s.board, p).Some?
    ensures !PlayMoveResult(s, Play(c, p)).0
    ensures StoneAt(UndoResult(PlayMoveResult(s, Play(c, p)).1).board, p) == None
  {
  }

  /** A generated stone is always accepted by the board. */
  lemma GeneratedMoveAccepted(s: PlayerState, color: Color, draw: nat)
    requires PlayerWellFormed(s)
    ensures PlayMoveResult(s, GenerateMoveResult(s, color, draw).0).0
  {
  }

  /** While nobody has won, every empty cell is the generated move for some draw. */
  lemma AnyEmptyCellCanBeDrawn(s: PlayerState, color: Color, p: Pos)
    requires PlayerWellFormed(s) && Winner(s.board).None?
    requires OnBoard(s.board.dims, p) && StoneAt(s.board, p) == None
    ensures exists draw: nat :: GenerateMoveResult(s, color, draw).0 == Play(color, p)
  {
    var es := EmptyList(s.board);
    EmptyListSpec(s.board, p);
    var i :| 0 <= i < |es| && es[i] == p;
    GeneratedFromChoice(s, color, i);
    ModSmall(i, |es|);
    assert GenerateMoveResult(s, color, i).0 == Play(color, p);
  }

  lemma ModSmall(i: nat, n: nat)
    requires i < n
    ensures i % n == i
  {
  }

  /** While nobody has won, the generated move is the choice among the empty cells. */
  lemma GeneratedFromChoice(s: PlayerState, color: Color, draw: nat)
    requires PlayerWellFormed(s) && Winner(s.board).None?
    ensures GenerateMoveResult(s, color, draw).0 == ChooseMove(EmptyList(s.board), color, draw)
  {
  }

  /** Shrinking the board keeps moves that lie outside it: an `undo` then has no cell to clear. */
  lemma UndoAfterShrinkFails()
    ensures !UndoOk(SetBoardSizeResult(PlayMoveResult(NewPlayer(), Play(Black, Pos(12, 12))).1, 5, 5))
  {
  }

  /**
   * The player: a `HexBoard.Board` it owns and the moves sent to it.  `Repr` is the set of
   * objects it may change.
   */
  class RandomPlayer {
    var board: Board
    var moves: seq<Move>
    ghost var Repr: set<object>

    ghost predicate Valid()
      reads this, Repr
    {
      && Repr == {this, board, board.colors, board.empty}
      && board.Valid()
    }

    ghost function Model(): (s: PlayerState)
      reads this, Repr
      requires Valid()
      ensures PlayerWellFormed(s)
    {
      PlayerState(board.Model(), moves)
    }

    /** `RandomPlayer::new`. */
    constructor ()
      ensures Valid() && fresh(Repr) && Model() == NewPlayer()
    {
      board := new Board(Pos(13, 13));
      moves := [];
      new;
      Repr := {this, board, board.colors, board.empty};
    }

    /** `play_move`. */
    method PlayMove(m: Move) returns (ok: bool)
      requires Valid() && Playable(Model(), m)
      modifies Repr
      ensures Valid() && Repr == old(Repr)
      ensures (ok, Model()) == PlayMoveResult(old(Model()), m)
    {
      moves := moves + [m];
      ok := board.Play(m);
    }

    /** `undo`. */
    method Undo()
      requires Valid() && UndoOk(Model())
      modifies Repr
      ensures Valid() && Repr == old(Repr)
      ensures Model() == UndoResult(old(Model()))
    {
      if moves != [] {
        var m := moves[|moves| - 1];
        moves := moves[..|moves| - 1];
        if m.Play? {
          board.ClearCell(m.pos);
        }
      }
    }

    /** `generate_move`. */
    method GenerateMove(color: Color, draw: nat) returns (m: Move)
      requires Valid()
      modifies Repr
      ensures Valid() && Repr == old(Repr)
      ensures (m, Model()) == GenerateMoveResult(old(Model()), color, draw)
    {
      var w := board.CheckWin();
      if w.Some? {
        return Resign;
      }
      var empties := board.EmptyCells();
      m := ChooseMove(empties, color, draw);
      var _ := PlayMove(m);
    }

    /** `set_board_size`. */
    method SetBoardSize(cols: Coord, rows: Coord)
      requires Valid()
      modifies this
      ensures Valid() && fresh(Repr - old(Repr))
      ensures Model() == SetBoardSizeResult(old(Model()), cols, rows)
    {
      board := new Board(Pos(cols, rows));
      Repr := {this, board, board.colors, board.empty};
    }
  }
}
