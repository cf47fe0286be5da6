/**
 * The observable state of a `Board` (src/player/board.rs) as a value: its dimensions, the
 * contents of every cell and the colour to play.  The union-find groups are not part of
 * it: they are a cache of the connectivity of this state (see Connectivity).
 */
module BoardSpec {
  import opened Wrappers
  import opened Text
  import opened Hex
  import opened Layout

  datatype BoardState = BoardState(dims: Pos, cells: seq<Option<Color>>, toPlay: Color)

  predicate WellFormed(b: BoardState) {
    |b.cells| == Area(b.dims)
  }

  /** `Board::get`: the stone on an on-board cell, if any. */
  function StoneAt(b: BoardState, p: Pos): Option<Color>
    requires WellFormed(b) && OnBoard(b.dims, p)
  {
    b.cells[Index(b.dims, p)]
  }

  /** `Board::new`: every cell empty, Black to play. */
  function EmptyBoard(dims: Pos): (b: BoardState)
    ensures WellFormed(b) && b.dims == dims && b.toPlay == Black
    ensures forall p :: OnBoard(dims, p) ==> StoneAt(b, p) == None
  {
    BoardState(dims, seq(Area(dims), _ => None), Black)
  }

  /** `Board::set` on the cell contents: only that cell changes. */
  function SetCell(b: BoardState, p: Pos, v: Option<Color>): (r: BoardState)
    requires WellFormed(b) && OnBoard(b.dims, p)
    ensures WellFormed(r) && r.dims == b.dims && r.toPlay == b.toPlay
    ensures StoneAt(r, p) == v
    ensures forall q :: OnBoard(b.dims, q) && q != p ==> StoneAt(r, q) == StoneAt(b, q)
  {
    var r := BoardState(b.dims, b.cells[Index(b.dims, p) := v], b.toPlay);
    assert forall q :: OnBoard(b.dims, q) && q != p ==> StoneAt(r, q) == StoneAt(b, q) by {
      forall q | OnBoard(b.dims, q) && q != p
        ensures StoneAt(r, q) == StoneAt(b, q)
      {
        if Index(b.dims, q) == Index(b.dims, p) { IndexInjective(b.dims, p, q); }
      }
    }
    r
  }

  /**
   * `Board::play`: resigning and passing always succeed and change nothing; a stone on an
   * occupied cell is refused and changes nothing; a stone on an empty cell is placed and
   * the other colour is to play.  An off-board stone makes the source panic.
   */
  function PlayBoard(b: BoardState, m: Move): (r: (bool, BoardState))
    requires WellFormed(b) && (m.Play? ==> OnBoard(b.dims, m.pos))
    ensures WellFormed(r.1) && r.1.dims == b.dims
    ensures !m.Play? ==> r == (true, b)
    ensures m.Play? && StoneAt(b, m.pos).Some? ==> r == (false, b)
    ensures m.Play? && StoneAt(b, m.pos).None? ==>
      && r.0
      && StoneAt(r.1, m.pos) == Some(m.color)
      && r.1.toPlay == Invert(m.color)
      && forall q :: OnBoard(b.dims, q) && q != m.pos ==> StoneAt(r.1, q) == StoneAt(b, q)
  {
    match m
    case Resign => (true, b)
    case Pass => (true, b)
    case Play(c, p) =>
      if StoneAt(b, p).Some? then (false, b)
      else
        var b' := SetCell(b, p, Some(c));
        (true, b'.(toPlay := Invert(c)))
  }

  /** The empty cells with index `i` or more, in index order (what `Iter` yields from there). */
  function EmptyFrom(b: BoardState, i: nat): (ps: seq<Pos>)
    requires WellFormed(b) && i <= |b.cells|
    ensures forall k :: 0 <= k < |ps| ==>
      OnBoard(b.dims, ps[k]) && i <= Index(b.dims, ps[k]) && StoneAt(b, ps[k]) == None
    ensures forall k, l :: 0 <= k < l < |ps| ==> Index(b.dims, ps[k]) < Index(b.dims, ps[l])
    decreases |b.cells| - i
  {
    if i == |b.cells| then []
    else if b.cells[i] == None then [PosOfIndex(b.dims, i)] + EmptyFrom(b, i + 1)
    else EmptyFrom(b, i + 1)
  }

  /** `Board::empty_cells` collected: every empty cell once, in storage order. */
  function EmptyList(b: BoardState): seq<Pos>
    requires WellFormed(b)
  {
    EmptyFrom(b, 0)
  }

  lemma {:induction false} EmptyFromComplete(b: BoardState, i: nat, p: Pos)
    requires WellFormed(b) && i <= |b.cells|
    requires OnBoard(b.dims, p) && i <= Index(b.dims, p) && StoneAt(b, p) == None
    ensures p in EmptyFrom(b, i)
    decreases |b.cells| - i
  {
    if Index(b.dims, p) == i {
      PosOfIndexOfPos(b.dims, p);
    } else {
      EmptyFromComplete(b, i + 1, p);
    }
  }

  /** A position is listed exactly when it is an empty cell of the board. */
  lemma EmptyListSpec(b: BoardState, p: Pos)
    requires WellFormed(b)
    ensures p in EmptyList(b) <==> OnBoard(b.dims, p) && StoneAt(b, p) == None
  {
    if OnBoard(b.dims, p) && StoneAt(b, p) == None {
      EmptyFromComplete(b, 0, p);
    }
  }

  /** Nothing is listed exactly when every cell holds a stone. */
  lemma EmptyListIsEmptyIffFull(b: BoardState)
    requires WellFormed(b)
    ensures EmptyList(b) == [] <==> forall p :: OnBoard(b.dims, p) ==> StoneAt(b, p).Some?
  {
    if EmptyList(b) != [] {
      EmptyListSpec(b, EmptyList(b)[0]);
    } else {
      forall p | OnBoard(b.dims, p) ensures StoneAt(b, p).Some? {
        EmptyListSpec(b, p);
      }
    }
  }

  // ---- `Display for Board`: the ASCII diagram `showboard` prints ----

  /** `(x + 'a' as u8) as char`, wrapping as `u8` addition does. */
  function LowerLetter(x: nat): char {
    ((x + 'a' as int) % 256) as char
  }

  function Spaces(n: nat): (s: string)
    ensures |s| == n && forall i :: 0 <= i < n ==> s[i] == ' '
  {
    if n == 0 then [] else " " + Spaces(n - 1)
  }

  /** The column letters from `x` on, each followed by a space. */
  function LetterRow(x: nat, w: nat): string
    decreases w - x
  {
    if x >= w then [] else [LowerLetter(x), ' '] + LetterRow(x + 1, w)
  }

  function CellChar(v: Option<Color>): char {
    match v
    case None => '+'
    case Some(c) => ColorName(c)[0]
  }

  /** The cells of row `y` from column `x` on, separated by spaces. */
  function RowCells(b: BoardState, y: nat, x: nat): string
    requires WellFormed(b) && y < b.dims.y
    decreases b.dims.x - x
  {
    if x >= b.dims.x then []
    else
      [CellChar(StoneAt(b, Pos(x, y)))] + (if x != b.dims.x - 1 then " " else "")
      + RowCells(b, y, x + 1)
  }

  /** `{:2}`: right-aligned in a field of two characters. */
  function Pad2(n: nat): string {
    if n < 10 then " " + Decimal(n) else Decimal(n)
  }

  /** Rows `y` and below, each on a new line, indented by its row number. */
  function RowLines(b: BoardState, y: nat): string
    requires WellFormed(b)
    decreases b.dims.y - y
  {
    if y >= b.dims.y then []
    else
      "\n" + Spaces(y) + Pad2(y + 1) + "\\" + RowCells(b, y, 0) + "\\" + Decimal(y + 1)
      + RowLines(b, y + 1)
  }

  /** `Display for Board`. */
  function Render(b: BoardState): string
    requires WellFormed(b)
  {
    "  " + LetterRow(0, b.dims.x) + RowLines(b, 0) + "\n   " + Spaces(b.dims.y) + LetterRow(0, b.dims.x)
  }
}
