/**
 * `Board` (src/player/board.rs) as a class: the two bit vectors become boolean arrays,
 * `to_play` a field, and the per-colour union-finds a sequence the methods replace.
 * `Valid` ties the union-finds to the connectivity of the stones (Connectivity.Tracks),
 * and `Model` is the state as a value (BoardSpec.BoardState).
 */
module HexBoard {
  import opened Wrappers
  import opened Hex
  import opened Layout
  import opened BoardSpec
  import opened UnionFind
  import opened Connectivity

  /** The cell contents the two bit vectors encode. */
  function CellsOf(empty: seq<bool>, colors: seq<bool>): (cells: seq<Option<Color>>)
    requires |empty| == |colors|
    ensures |cells| == |empty|
    ensures forall i :: 0 <= i < |empty| ==>
      cells[i] == if empty[i] then None else Some(ColorFromBool(colors[i]))
  {
    seq(|empty|, i requires 0 <= i < |empty| => if empty[i] then None else Some(ColorFromBool(colors[i])))
  }

  class Board {
    const dims: Pos
    const colors: array<bool>
    const empty: array<bool>
    var toPlay: Color
    var groups: seq<QuickUnionUf>

    ghost predicate Shape()
      reads this
    {
      && colors.Length == Area(dims) && empty.Length == Area(dims) && colors != empty
      && |groups| == 2 && Sized(groups[0], dims) && Sized(groups[1], dims)
    }

    function Cells(): (cells: seq<Option<Color>>)
      reads this, colors, empty
      requires Shape()
      ensures |cells| == Area(dims)
    {
      CellsOf(empty[..], colors[..])
    }

    /** The board as a value. */
    function Model(): (b: BoardState)
      reads this, colors, empty
      requires Shape()
      ensures WellFormed(b) && b.dims == dims
    {
      BoardState(dims, Cells(), toPlay)
    }

    /** Each colour's union-find is the connectivity of that colour within scope `s`. */
    ghost predicate GroupsTrack(s: Scope)
      reads this, colors, empty
      requires Shape()
    {
      && Tracks(groups[0], Graph(dims, Cells(), Black, s))
      && Tracks(groups[1], Graph(dims, Cells(), White, s))
    }

    ghost predicate Valid()
      reads this, colors, empty
    {
      Shape() && GroupsTrack(FullScope(dims))
    }

    /** `Board::new`. */
    constructor (dims: Pos)
      ensures Valid() && fresh(colors) && fresh(empty)
      ensures Model() == EmptyBoard(dims)
    {
      this.dims := dims;
      colors := new bool[Area(dims)](_ => false);
      empty := new bool[Area(dims)](_ => true);
      toPlay := Black;
      groups := [New(Area(dims) + 2), New(Area(dims) + 2)];
      new;
      assert Model() == EmptyBoard(dims);
      NewTracks(Graph(dims, Cells(), Black, FullScope(dims)));
      NewTracks(Graph(dims, Cells(), White, FullScope(dims)));
    }

    /** `Board::on_board`. */
    predicate IsOnBoard(p: Pos)
      reads this
      ensures IsOnBoard(p) <==> IdxOf(dims, p).Some?
    {
      OnBoard(dims, p)
    }

    /** `Board::get`; an off-board position makes the source panic. */
    method Get(p: Pos) returns (r: Option<Color>)
      requires Shape() && OnBoard(dims, p)
      ensures r == StoneAt(Model(), p)
    {
      var idx := Index(dims, p);
      if empty[idx] {
        r := None;
      } else {
        r := Some(ColorFromBool(colors[idx]));
      }
    }

    /** `Board::is_empty`. */
    method IsEmpty(p: Pos) returns (e: bool)
      requires Shape() && OnBoard(dims, p)
      ensures e <==> StoneAt(Model(), p) == None
    {
      var v := Get(p);
      e := v == None;
    }

    /**
     * The body of `update_groups` for a stone of colour `c` on `p`: join it to its edge node,
     * then to each of the six neighbours holding a stone of the same colour.
     */
    method JoinStone(p: Pos, c: Color, uf0: QuickUnionUf, ghost g1: Graph, ghost g2: Graph) returns (uf: QuickUnionUf)
      requires Shape() && OnBoard(dims, p)
      requires g2 == Graph(dims, Cells(), c, g2.scope) && g2.scope.hidden == None && InScope(g2.scope, p)
      requires Ready(uf0, g1, g2, p) && Has(g2, p)
      ensures Tracks(uf, g2)
    {
      uf := uf0;
      var idx := Index(dims, p);
      var side := SideOf(dims, p, c);
      if side.Some? {
        JoinSide(uf, g1, g2, p);
        uf := Union(uf, idx, EdgeIndex(dims, side.value));
      }
      for k := 0 to 6
        invariant Ready(uf, g1, g2, p) && JoinedUpTo(uf, g2, p, k)
      {
        uf := JoinNeighbour(p, c, k, uf, g1, g2);
      }
      ReadyJoined(uf, g1, g2, p);
    }

    /** One pass of the loop over `neighbor_patterns`: join `p` to the stone under offset `k`, if any. */
    method JoinNeighbour(p: Pos, c: Color, k: nat, uf0: QuickUnionUf, ghost g1: Graph, ghost g2: Graph) returns (uf: QuickUnionUf)
      requires Shape() && OnBoard(dims, p) && k < 6
      requires g2 == Graph(dims, Cells(), c, g2.scope) && g2.scope.hidden == None && InScope(g2.scope, p)
      requires Ready(uf0, g1, g2, p) && Has(g2, p) && JoinedUpTo(uf0, g2, p, k)
      ensures Ready(uf, g1, g2, p) && JoinedUpTo(uf, g2, p, k + 1)
    {
      uf := uf0;
      var (dx, dy) := Offset(k);
      var cell := Pos((p.x + dx) % 256, (p.y + dy) % 256);
      assert cell == NeighbourCell(p, k);
      var joined := false;
      if OnBoard(dims, cell) {
        var w := Get(cell);
        if w == Some(c) {
          JoinStep(uf, g1, g2, p, k);
          uf := Union(uf, Index(dims, p), Index(dims, cell));
          joined := true;
        }
      }
      if !joined {
        JoinSkip(uf, g2, p, k);
      }
    }

    /**
     * `Board::update_groups`.  Going from scope `s1` to `s2` adds the links touching `p`;
     * only the union-find of the stone's colour changes.
     */
    method UpdateGroups(p: Pos, ghost s1: Scope, ghost s2: Scope)
      requires Shape() && OnBoard(dims, p)
      requires Ready(groups[0], Graph(dims, Cells(), Black, s1), Graph(dims, Cells(), Black, s2), p)
      requires Ready(groups[1], Graph(dims, Cells(), White, s1), Graph(dims, Cells(), White, s2), p)
      requires s2.hidden == None && InScope(s2, p)
      modifies this`groups
      ensures Shape() && GroupsTrack(s2)
    {
      var v := Get(p);
      if v == None {
        ReadyUntouched(groups[0], Graph(dims, Cells(), Black, s1), Graph(dims, Cells(), Black, s2), p);
        ReadyUntouched(groups[1], Graph(dims, Cells(), White, s1), Graph(dims, Cells(), White, s2), p);
        return;
      }
      var c := v.value;
      var i := ColorIndex(c);
      ghost var o1, o2 := Graph(dims, Cells(), Invert(c), s1), Graph(dims, Cells(), Invert(c), s2);
      assert Ready(groups[1 - i], o1, o2, p);
      ReadyUntouched(groups[1 - i], o1, o2, p);
      var uf := JoinStone(p, c, groups[i], Graph(dims, Cells(), c, s1), Graph(dims, Cells(), c, s2));
      groups := groups[i := uf];
    }

    /** `Board::rebuild_groups`: fresh union-finds, then `update_groups` on every cell, column by column. */
    method RebuildGroups()
      requires Shape()
      modifies this`groups
      ensures Shape() && GroupsTrack(FullScope(dims))
    {
      groups := [New(Area(dims) + 2), New(Area(dims) + 2)];
      NothingVisited(dims, Cells(), Black);
      NothingVisited(dims, Cells(), White);
      for x := 0 to dims.x
        invariant Shape() && GroupsTrack(Scope(x, 0, None))
      {
        for y := 0 to dims.y
          invariant Shape() && GroupsTrack(Scope(x, y, None))
        {
          GrowsRebuildStep(dims, Cells(), Black, x, y);
          GrowsRebuildStep(dims, Cells(), White, x, y);
          SoundMono(groups[0], Graph(dims, Cells(), Black, Scope(x, y, None)), Graph(dims, Cells(), Black, Scope(x, y + 1, None)));
          SoundMono(groups[1], Graph(dims, Cells(), White, Scope(x, y, None)), Graph(dims, Cells(), White, Scope(x, y + 1, None)));
          UpdateGroups(Pos(x, y), Scope(x, y, None), Scope(x, y + 1, None));
        }
        ColumnDone(dims, Cells(), Black, x, groups[0]);
        ColumnDone(dims, Cells(), White, x, groups[1]);
      }
      AllVisited(dims, Cells(), Black, groups[0]);
      AllVisited(dims, Cells(), White, groups[1]);
    }

    /**
     * `Board::set`.  Writing a stone over one of the other colour is not covered: the
     * union-find of that colour would keep its old joins, and no caller does it.
     */
    method Set(p: Pos, v: Option<Color>)
      requires Valid() && OnBoard(dims, p)
      requires v == None || StoneAt(Model(), p) == None || StoneAt(Model(), p) == v
      modifies this, colors, empty
      ensures Valid()
      ensures Model() == SetCell(old(Model()), p, v)
    {
      ghost var before := Model();
      var idx := Index(dims, p);
      empty[idx] := v.None?;
      if v.Some? {
        colors[idx] := ColorToBool(v.value);
        ghost var after := SetCell(before, p, v);
        assert Cells() == after.cells;
        ReadyAfterSet(before, p, v.value, Black, groups[0]);
        ReadyAfterSet(before, p, v.value, White, groups[1]);
        UpdateGroups(p, Scope(dims.x, 0, Some(p)), FullScope(dims));
      } else {
        assert Cells() == SetCell(before, p, v).cells;
        RebuildGroups();
      }
    }

    /** `Board::clear_cell`: the cell becomes empty and the groups are rebuilt from the remaining stones. */
    method ClearCell(p: Pos)
      requires Valid() && OnBoard(dims, p)
      modifies this, colors, empty
      ensures Valid()
      ensures Model() == SetCell(old(Model()), p, None)
    {
      Set(p, None);
    }

    /** `Board::play`. */
    method Play(m: Move) returns (ok: bool)
      requires Valid() && (m.Play? ==> OnBoard(dims, m.pos))
      modifies this, colors, empty
      ensures Valid()
      ensures (ok, Model()) == PlayBoard(old(Model()), m)
    {
      match m
      case Resign => ok := true;
      case Pass => ok := true;
      case Play(c, p) =>
        var e := IsEmpty(p);
        if !e {
          ok := false;
        } else {
          Set(p, Some(c));
          toPlay := Invert(c);
          ok := true;
        }
    }

    /** `Board::set_to_play`. */
    method SetToPlay(c: Color)
      requires Valid()
      modifies this`toPlay
      ensures Valid() && Model() == old(Model()).(toPlay := c)
    {
      toPlay := c;
    }

    /** `Board::check_win`: looks in each colour's union-find for joined edge nodes. */
    method CheckWin() returns (r: Option<Color>)
      requires Valid()
      ensures r == Winner(Model())
    {
      var edge0, edge1 := EdgeIndex(dims, 0), EdgeIndex(dims, 1);
      TracksIff(groups[0], Full(Model(), Black), Side(0), Side(1));
      TracksIff(groups[1], Full(Model(), White), Side(0), Side(1));
      for i := 0 to 2
        invariant forall j :: 0 <= j < i ==> !Same(groups[j], edge0, edge1)
      {
        if Find(groups[i], edge0) == Find(groups[i], edge1) {
          return Some(ColorFromBool(i > 0));
        }
      }
      return None;
    }

    /** `Board::empty_cells` collected: walks the bit vector of empty cells with an index. */
    method EmptyCells() returns (ps: seq<Pos>)
      requires Shape()
      ensures ps == EmptyList(Model())
    {
      ps := [];
      var idx := 0;
      while idx < empty.Length
        invariant 0 <= idx <= empty.Length
        invariant ps + EmptyFrom(Model(), idx) == EmptyList(Model())
      {
        if empty[idx] {
          ps := ps + [PosOfIndex(dims, idx)];
        }
        idx := idx + 1;
      }
    }
  }
}
