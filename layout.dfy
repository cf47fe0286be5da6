/**
 * Where the board keeps each cell (src/player/board.rs, `on_board`, `idx_of`, `edge_idx`
 * and the position computed in `Iter::next`).  Cells are stored row after row; the two
 * virtual edge nodes of the union-find come after the last cell.
 *
 * The source uses `dims.y` as the row stride.  That is right only on square boards, so the
 * model uses `dims.x` (see `IndexOfAsWritten` for the code as written).
 */
module Layout {
  import opened Wrappers
  import opened Hex

  /** `Pos::area`: the number of cells of a board with these dimensions. */
  function Area(dims: Pos): nat {
    dims.x * dims.y
  }

  /** `Board::on_board`. */
  predicate OnBoard(dims: Pos, p: Pos) {
    p.x < dims.x && p.y < dims.y
  }

  /**
   * An on-board cell has both coordinates below 255, so the row 255 that row number 0
   * wraps to is on no board, and a board with a cell has a positive area.
   */
  lemma OnBoardBounds(dims: Pos, p: Pos)
    requires OnBoard(dims, p)
    ensures p.x < 255 && p.y < 255 && Area(dims) > 0
  {
    MulLeq(1, dims.y, dims.x);
  }

  lemma MulLeq(a: nat, b: nat, w: nat)
    requires a <= b
    ensures a * w <= b * w
  {
    assert b * w == a * w + (b - a) * w;
  }

  /** The storage index of an on-board cell, rows of `dims.x` cells each. */
  function Index(dims: Pos, p: Pos): (i: nat)
    requires OnBoard(dims, p)
    ensures i < Area(dims)
  {
    MulLeq(p.y + 1, dims.y, dims.x);
    p.y * dims.x + p.x
  }

  /** `Board::idx_of` with the row stride corrected: defined exactly on the board. */
  function IdxOf(dims: Pos, p: Pos): (r: Option<nat>)
    ensures r.Some? <==> OnBoard(dims, p)
    ensures r.Some? ==> r.value < Area(dims)
  {
    if OnBoard(dims, p) then Some(Index(dims, p)) else None
  }

  /** Distinct cells have distinct indices. */
  lemma IndexInjective(dims: Pos, p: Pos, q: Pos)
    requires OnBoard(dims, p) && OnBoard(dims, q)
    requires Index(dims, p) == Index(dims, q)
    ensures p == q
  {
    RowsApart(p.y, q.y, dims.x);
    RowsApart(q.y, p.y, dims.x);
  }

  /** A lower row ends a whole stride before a higher row begins. */
  lemma RowsApart(a: nat, b: nat, w: nat)
    ensures a < b ==> a * w + w <= b * w
  {
    if a < b {
      MulLeq(a + 1, b, w);
      assert (a + 1) * w == a * w + w;
    }
  }

  /** The cell stored at index `i`: the position `Iter::next` computes, stride corrected. */
  function PosOfIndex(dims: Pos, i: nat): (p: Pos)
    requires i < Area(dims)
    ensures OnBoard(dims, p) && Index(dims, p) == i
  {
    var w := dims.x;
    assert w > 0;
    var x, y := i % w, i / w;
    assert y < dims.y by {
      if y >= dims.y { MulLeq(dims.y, y, w); }
    }
    Pos(x, y)
  }

  lemma PosOfIndexOfPos(dims: Pos, p: Pos)
    requires OnBoard(dims, p)
    ensures PosOfIndex(dims, Index(dims, p)) == p
  {
    IndexInjective(dims, p, PosOfIndex(dims, Index(dims, p)));
  }

  /** `Board::edge_idx`: the virtual node of edge 0 or 1, just after the cells. */
  function EdgeIndex(dims: Pos, edge: nat): (i: nat)
    requires edge < 2
    ensures Area(dims) <= i < Area(dims) + 2
  {
    Area(dims) + edge
  }

  /** `idx_of` exactly as written: row stride `dims.y`. */
  function IndexOfAsWritten(dims: Pos, p: Pos): Option<nat> {
    if OnBoard(dims, p) then Some(p.y * dims.y + p.x) else None
  }

  /** The position `Iter::next` computes as written: `(idx % dims.x, idx / dims.y)`. */
  function IterPosAsWritten(dims: Pos, idx: nat): Pos
    requires dims.x > 0 && dims.y > 0
  {
    Pos((idx % dims.x) % 256, (idx / dims.y) % 256)
  }

  /** On a square board the written stride and the corrected one agree. */
  lemma AsWrittenAgreesOnSquare(dims: Pos, p: Pos)
    requires dims.x == dims.y
    ensures IndexOfAsWritten(dims, p) == IdxOf(dims, p)
  {
  }

  /** On a square board the written iterator reports every index as the corrected one does. */
  lemma IterAgreesOnSquare(dims: Pos, i: nat)
    requires dims.x == dims.y && i < Area(dims)
    ensures IterPosAsWritten(dims, i) == PosOfIndex(dims, i)
  {
  }

  /**
   * On a 3-column, 2-row board (`boardsize 3 2`) the cells c1 and a2 share index 2, so a
   * stone on one makes the other look occupied.
   */
  lemma AsWrittenAliasesWideBoard()
    ensures IndexOfAsWritten(Pos(3, 2), Pos(2, 0)) == Some(2)
    ensures IndexOfAsWritten(Pos(3, 2), Pos(0, 1)) == Some(2)
  {
  }

  /**
   * On a 2-column, 3-row board (`boardsize 2 3`) the cell b3 gets index 7, past the
   * six cells the bit vectors hold, so `get` on it panics.
   */
  lemma AsWrittenOverrunsTallBoard()
    ensures IndexOfAsWritten(Pos(2, 3), Pos(1, 2)) == Some(7)
    ensures Area(Pos(2, 3)) == 6
  {
  }

  /**
   * On a 3-column, 2-row board the iterator turns index 2, where the written `idx_of`
   * stores c1, into c2.
   */
  lemma IterAsWrittenMisplaces()
    ensures IndexOfAsWritten(Pos(3, 2), Pos(2, 0)) == Some(2)
    ensures IterPosAsWritten(Pos(3, 2), 2) == Pos(2, 1)
    ensures PosOfIndex(Pos(3, 2), 2) == Pos(2, 0)
  {
  }

  /** The corrected iterator position inverts the corrected index on every board. */
  lemma IndexRoundTrip(dims: Pos, i: nat)
    requires i < Area(dims)
    ensures IdxOf(dims, PosOfIndex(dims, i)) == Some(i)
  {
  }
}
