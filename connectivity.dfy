/**
 * What the per-colour union-find of `Board` (src/player/board.rs, `update_groups`,
 * `rebuild_groups`, `check_win`) stands for: for each colour, the undirected graph whose
 * nodes are the cells and the two virtual edge nodes, with a link between two neighbouring
 * stones of that colour and between a stone and the edge node `update_groups` joins it to.
 *
 * A `Scope` describes a graph part-way through an update: only links touching a cell
 * already visited (in the x-then-y order of `rebuild_groups`) are present, and a
 * `hidden` cell counts as empty (the freshly placed stone, before `update_groups`).
 */
module Connectivity {
  import opened Wrappers
  import opened Hex
  import opened Layout
  import opened BoardSpec
  import opened UnionFind

  datatype Node = Cell(pos: Pos) | Side(edge: nat)

  predicate ValidNode(dims: Pos, u: Node) {
    match u
    case Cell(p) => OnBoard(dims, p)
    case Side(k) => k < 2
  }

  /** The union-find element standing for a node: `idx_of` for cells, `edge_idx` for edges. */
  function NodeIndex(dims: Pos, u: Node): (i: nat)
    requires ValidNode(dims, u)
    ensures i < Area(dims) + 2
  {
    match u
    case Cell(p) => Index(dims, p)
    case Side(k) => EdgeIndex(dims, k)
  }

  lemma NodeIndexInjective(dims: Pos, u: Node, v: Node)
    requires ValidNode(dims, u) && ValidNode(dims, v)
    requires NodeIndex(dims, u) == NodeIndex(dims, v)
    ensures u == v
  {
    if u.Cell? && v.Cell? {
      IndexInjective(dims, u.pos, v.pos);
    }
  }

  /** The six neighbour offsets of `update_groups`, in the order it tries them. */
  function Offset(k: nat): (int, int)
    requires k < 6
  {
    [(-1, 0), (0, -1), (-1, 1), (0, 1), (1, 0), (1, -1)][k]
  }

  /** Hex adjacency: `q` is `p` moved by one of the six offsets. */
  predicate Adjacent(p: Pos, q: Pos) {
    var dx, dy := q.x - p.x, q.y - p.y;
    (dx == -1 && dy == 0) || (dx == 0 && dy == -1) || (dx == -1 && dy == 1)
    || (dx == 0 && dy == 1) || (dx == 1 && dy == 0) || (dx == 1 && dy == -1)
  }

  /** Which of the six offsets leads from `p` to its neighbour `q`. */
  function OffsetOf(p: Pos, q: Pos): (k: nat)
    requires Adjacent(p, q)
    ensures k < 6 && Offset(k) == (q.x - p.x, q.y - p.y)
  {
    var dx, dy := q.x - p.x, q.y - p.y;
    if dx == -1 && dy == 0 then 0
    else if dx == 0 && dy == -1 then 1
    else if dx == -1 && dy == 1 then 2
    else if dx == 0 && dy == 1 then 3
    else if dx == 1 && dy == 0 then 4
    else 5
  }

  /**
   * The edge node a stone of colour `c` on `p` is joined to, following the match in
   * `update_groups`: Black on row 0 and White on column 0 go to edge 0, Black on the last
   * row and White on the last column to edge 1.  The first case wins, so on a board with
   * a single row (or column) that row joins edge 0 only.
   */
  function SideOf(dims: Pos, p: Pos, c: Color): (r: Option<nat>)
    requires OnBoard(dims, p)
    ensures r.Some? ==> r.value < 2
    ensures r == Some(0) <==> (c == Black && p.y == 0) || (c == White && p.x == 0)
    ensures r == Some(1) <==> (c == Black && 0 < p.y == dims.y - 1) || (c == White && 0 < p.x == dims.x - 1)
  {
    if (p.y == 0 && c == Black) || (p.x == 0 && c == White) then Some(0)
    else if c == Black && p.y == dims.y - 1 then Some(1)
    else if c == White && p.x == dims.x - 1 then Some(1)
    else None
  }

  datatype Scope = Scope(ux: int, uy: int, hidden: Option<Pos>)

  /** Cell `p` comes before `(ux, uy)` in the x-then-y order of `rebuild_groups`. */
  predicate InScope(s: Scope, p: Pos) {
    p.x < s.ux || (p.x == s.ux && p.y < s.uy)
  }

  /** The scope that covers every cell of a board. */
  function FullScope(dims: Pos): Scope {
    Scope(dims.x, 0, None)
  }

  datatype Graph = Graph(dims: Pos, cells: seq<Option<Color>>, c: Color, scope: Scope)

  predicate WellFormedGraph(g: Graph) {
    |g.cells| == Area(g.dims)
  }

  /** The colour-`c` graph of a whole board. */
  function Full(b: BoardState, c: Color): (g: Graph)
    requires WellFormed(b)
    ensures WellFormedGraph(g)
  {
    Graph(b.dims, b.cells, c, FullScope(b.dims))
  }

  /** A stone of the graph's colour stands on `p` (and `p` is not hidden). */
  predicate Has(g: Graph, p: Pos)
    requires WellFormedGraph(g) && OnBoard(g.dims, p)
  {
    g.scope.hidden != Some(p) && g.cells[Index(g.dims, p)] == Some(g.c)
  }

  predicate Link(g: Graph, u: Node, v: Node)
    requires WellFormedGraph(g)
    ensures Link(g, u, v) ==> ValidNode(g.dims, u) && ValidNode(g.dims, v)
  {
    match u
    case Cell(p) =>
      OnBoard(g.dims, p) && Has(g, p) &&
      (match v
       case Cell(q) =>
         OnBoard(g.dims, q) && Has(g, q) && Adjacent(p, q) && (InScope(g.scope, p) || InScope(g.scope, q))
       case Side(k) => SideOf(g.dims, p, g.c) == Some(k) && InScope(g.scope, p))
    case Side(k) =>
      (match v
       case Cell(q) => OnBoard(g.dims, q) && Has(g, q) && SideOf(g.dims, q, g.c) == Some(k) && InScope(g.scope, q)
       case Side(_) => false)
  }

  lemma LinkSymmetric(g: Graph, u: Node, v: Node)
    requires WellFormedGraph(g) && Link(g, u, v)
    ensures Link(g, v, u)
  {
  }

  ghost predicate IsPath(g: Graph, path: seq<Node>)
    requires WellFormedGraph(g)
  {
    |path| > 0 && forall i :: 0 <= i < |path| - 1 ==> Link(g, path[i], path[i + 1])
  }

  /** `v` can be reached from `u` along links of `g`. */
  ghost predicate Reach(g: Graph, u: Node, v: Node)
    requires WellFormedGraph(g)
  {
    exists path :: IsPath(g, path) && path[0] == u && path[|path| - 1] == v
  }

  lemma ReachRefl(g: Graph, u: Node)
    requires WellFormedGraph(g)
    ensures Reach(g, u, u)
  {
    assert IsPath(g, [u]);
  }

  lemma ReachLink(g: Graph, u: Node, v: Node)
    requires WellFormedGraph(g) && Link(g, u, v)
    ensures Reach(g, u, v)
  {
    assert IsPath(g, [u, v]);
  }

  lemma ReachTrans(g: Graph, u: Node, v: Node, w: Node)
    requires WellFormedGraph(g) && Reach(g, u, v) && Reach(g, v, w)
    ensures Reach(g, u, w)
  {
    var p1 :| IsPath(g, p1) && p1[0] == u && p1[|p1| - 1] == v;
    var p2 :| IsPath(g, p2) && p2[0] == v && p2[|p2| - 1] == w;
    var p := p1 + p2[1..];
    forall i | 0 <= i < |p| - 1 ensures Link(g, p[i], p[i + 1]) {
      if i < |p1| - 1 {
        assert p[i] == p1[i] && p[i + 1] == p1[i + 1];
      } else {
        assert p[i] == p2[i - |p1| + 1] && p[i + 1] == p2[i - |p1| + 2];
      }
    }
    assert IsPath(g, p);
  }

  lemma ReachSymmetric(g: Graph, u: Node, v: Node)
    requires WellFormedGraph(g) && Reach(g, u, v)
    ensures Reach(g, v, u)
  {
    var p :| IsPath(g, p) && p[0] == u && p[|p| - 1] == v;
    var n := |p|;
    var r := seq(n, i requires 0 <= i < n => p[n - 1 - i]);
    forall i | 0 <= i < n - 1 ensures Link(g, r[i], r[i + 1]) {
      LinkSymmetric(g, p[n - 2 - i], p[n - 1 - i]);
    }
    assert IsPath(g, r);
  }

  /** Every link of `g1` is a link of `g2`. */
  ghost predicate Sublinks(g1: Graph, g2: Graph)
    requires WellFormedGraph(g1) && WellFormedGraph(g2)
  {
    forall u, v :: Link(g1, u, v) ==> Link(g2, u, v)
  }

  lemma ReachMono(g1: Graph, g2: Graph, u: Node, v: Node)
    requires WellFormedGraph(g1) && WellFormedGraph(g2) && Sublinks(g1, g2)
    requires Reach(g1, u, v)
    ensures Reach(g2, u, v)
  {
    var p :| IsPath(g1, p) && p[0] == u && p[|p| - 1] == v;
    assert IsPath(g2, p);
  }

  // ---- the union-find invariant ----

  predicate Sized(uf: QuickUnionUf, dims: Pos) {
    Size(uf) == Area(dims) + 2
  }

  predicate SameNode(uf: QuickUnionUf, dims: Pos, u: Node, v: Node)
    requires Sized(uf, dims) && ValidNode(dims, u) && ValidNode(dims, v)
  {
    Same(uf, NodeIndex(dims, u), NodeIndex(dims, v))
  }

  /** Nodes the union-find puts together are connected in `g`. */
  ghost predicate Sound(uf: QuickUnionUf, g: Graph)
    requires WellFormedGraph(g) && Sized(uf, g.dims)
  {
    forall u, v :: ValidNode(g.dims, u) && ValidNode(g.dims, v) && SameNode(uf, g.dims, u, v) ==> Reach(g, u, v)
  }

  /** The two ends of every link of `g` are together in the union-find. */
  ghost predicate Closed(uf: QuickUnionUf, g: Graph)
    requires WellFormedGraph(g) && Sized(uf, g.dims)
  {
    forall u, v :: Link(g, u, v) ==> SameNode(uf, g.dims, u, v)
  }

  /** The union-find is exactly the connectivity of `g`. */
  ghost predicate Tracks(uf: QuickUnionUf, g: Graph) {
    WellFormedGraph(g) && Sized(uf, g.dims) && Sound(uf, g) && Closed(uf, g)
  }

  lemma {:induction false} ClosedPath(uf: QuickUnionUf, g: Graph, path: seq<Node>)
    requires WellFormedGraph(g) && Sized(uf, g.dims) && Closed(uf, g)
    requires IsPath(g, path) && ValidNode(g.dims, path[0])
    ensures ValidNode(g.dims, path[|path| - 1])
    ensures SameNode(uf, g.dims, path[0], path[|path| - 1])
  {
    if |path| > 1 {
      var front := path[..|path| - 1];
      assert IsPath(g, front);
      ClosedPath(uf, g, front);
      assert Link(g, path[|path| - 2], path[|path| - 1]);
    }
  }

  /** Two nodes are together in a tracking union-find exactly when they are connected. */
  lemma TracksIff(uf: QuickUnionUf, g: Graph, u: Node, v: Node)
    requires Tracks(uf, g) && ValidNode(g.dims, u) && ValidNode(g.dims, v)
    ensures SameNode(uf, g.dims, u, v) <==> Reach(g, u, v)
  {
    if Reach(g, u, v) {
      var p :| IsPath(g, p) && p[0] == u && p[|p| - 1] == v;
      ClosedPath(uf, g, p);
    }
  }

  /** A fresh union-find tracks a graph with no links. */
  lemma NewTracks(g: Graph)
    requires WellFormedGraph(g)
    requires forall u, v :: !Link(g, u, v)
    ensures Tracks(New(Area(g.dims) + 2), g)
  {
    var uf := New(Area(g.dims) + 2);
    forall u, v | ValidNode(g.dims, u) && ValidNode(g.dims, v) && SameNode(uf, g.dims, u, v)
      ensures Reach(g, u, v)
    {
      NodeIndexInjective(g.dims, u, v);
      ReachRefl(g, u);
    }
  }

  /** Joining the two ends of a link keeps the union-find sound. */
  lemma UnionSound(uf: QuickUnionUf, g: Graph, a: Node, b: Node)
    requires WellFormedGraph(g) && Sized(uf, g.dims) && Sound(uf, g) && Link(g, a, b)
    ensures Sized(Union(uf, NodeIndex(g.dims, a), NodeIndex(g.dims, b)), g.dims)
    ensures Sound(Union(uf, NodeIndex(g.dims, a), NodeIndex(g.dims, b)), g)
  {
    var ia, ib := NodeIndex(g.dims, a), NodeIndex(g.dims, b);
    var r := Union(uf, ia, ib);
    forall u, v | ValidNode(g.dims, u) && ValidNode(g.dims, v) && SameNode(r, g.dims, u, v)
      ensures Reach(g, u, v)
    {
      var iu, iv := NodeIndex(g.dims, u), NodeIndex(g.dims, v);
      if Same(uf, iu, iv) {
      } else if Same(uf, iu, ia) && Same(uf, iv, ib) {
        assert Reach(g, u, a);
        assert Reach(g, v, b);
        ReachSymmetric(g, v, b);
        ReachLink(g, a, b);
        ReachTrans(g, u, a, b);
        ReachTrans(g, u, b, v);
      } else {
        assert Same(uf, iu, ib) && Same(uf, iv, ia);
        assert Reach(g, u, b);
        assert Reach(g, v, a);
        ReachSymmetric(g, v, a);
        LinkSymmetric(g, a, b);
        ReachLink(g, b, a);
        ReachTrans(g, u, b, a);
        ReachTrans(g, u, a, v);
      }
    }
  }

  /** A union only merges classes, so whatever was closed stays closed. */
  lemma UnionClosed(uf: QuickUnionUf, g: Graph, ia: nat, ib: nat)
    requires WellFormedGraph(g) && Sized(uf, g.dims) && Closed(uf, g)
    requires ia < Size(uf) && ib < Size(uf)
    ensures Sized(Union(uf, ia, ib), g.dims) && Closed(Union(uf, ia, ib), g)
  {
    var r := Union(uf, ia, ib);
    forall u, v | Link(g, u, v) ensures SameNode(r, g.dims, u, v) {
      assert SameNode(uf, g.dims, u, v);
    }
  }

  lemma SoundMono(uf: QuickUnionUf, g1: Graph, g2: Graph)
    requires WellFormedGraph(g1) && WellFormedGraph(g2) && g1.dims == g2.dims
    requires Sized(uf, g1.dims) && Sound(uf, g1) && Sublinks(g1, g2)
    ensures Sound(uf, g2)
  {
    forall u, v | ValidNode(g2.dims, u) && ValidNode(g2.dims, v) && SameNode(uf, g2.dims, u, v)
      ensures Reach(g2, u, v)
    {
      ReachMono(g1, g2, u, v);
    }
  }

  lemma ClosedAnti(uf: QuickUnionUf, g1: Graph, g2: Graph)
    requires WellFormedGraph(g1) && WellFormedGraph(g2) && g1.dims == g2.dims
    requires Sized(uf, g2.dims) && Closed(uf, g2) && Sublinks(g1, g2)
    ensures Closed(uf, g1)
  {
  }

  // ---- one call of `update_groups` ----

  /** `g2` is `g1` plus links that touch `p`. */
  ghost predicate Grows(g1: Graph, g2: Graph, p: Pos) {
    && WellFormedGraph(g1) && WellFormedGraph(g2)
    && g1.dims == g2.dims && g1.c == g2.c && OnBoard(g2.dims, p)
    && Sublinks(g1, g2)
    && (forall u, v :: Link(g2, u, v) && u != Cell(p) && v != Cell(p) ==> Link(g1, u, v))
  }

  /** What `update_groups(p)` needs of one colour's union-find: sound for the graph after, closed for the one before. */
  ghost predicate Ready(uf: QuickUnionUf, g1: Graph, g2: Graph, p: Pos) {
    Grows(g1, g2, p) && Sized(uf, g2.dims) && Sound(uf, g2) && Closed(uf, g1)
  }

  /** A colour without a stone on `p` gains no links there, so its union-find is already right. */
  lemma ReadyUntouched(uf: QuickUnionUf, g1: Graph, g2: Graph, p: Pos)
    requires Ready(uf, g1, g2, p) && !Has(g2, p)
    ensures Tracks(uf, g2)
  {
    forall u, v | Link(g2, u, v) ensures SameNode(uf, g2.dims, u, v) {
      assert Link(g1, u, v);
    }
  }

  /**
   * After joining `p` to its edge node and to every neighbouring stone of the same colour,
   * the union-find is closed for the graph after the update.
   */
  lemma ReadyJoined(uf: QuickUnionUf, g1: Graph, g2: Graph, p: Pos)
    requires Ready(uf, g1, g2, p) && Has(g2, p)
    requires g2.scope.hidden == None && InScope(g2.scope, p)
    requires SideOf(g2.dims, p, g2.c).Some? ==>
      SameNode(uf, g2.dims, Cell(p), Side(SideOf(g2.dims, p, g2.c).value))
    requires forall q :: OnBoard(g2.dims, q) && Adjacent(p, q) && Has(g2, q) ==> SameNode(uf, g2.dims, Cell(p), Cell(q))
    ensures Tracks(uf, g2)
  {
    forall u, v | Link(g2, u, v) ensures SameNode(uf, g2.dims, u, v) {
      if u == Cell(p) || v == Cell(p) {
        if u == Cell(p) && v.Cell? {
          assert Adjacent(p, v.pos);
        } else if v == Cell(p) && u.Cell? {
          assert Adjacent(p, u.pos) && Has(g2, u.pos);
          assert SameNode(uf, g2.dims, Cell(p), u);
        }
      } else {
        assert Link(g1, u, v);
      }
    }
  }

  /**
   * The neighbour `update_groups` tries under offset `k`: the sum is cast back to a `u8`
   * coordinate, so stepping off the low edge wraps around to 255.
   */
  function NeighbourCell(p: Pos, k: nat): (q: Pos)
    requires k < 6
    ensures 0 <= p.x + Offset(k).0 < 256 && 0 <= p.y + Offset(k).1 < 256 ==> Adjacent(p, q) && OffsetOf(p, q) == k
    ensures p.x + Offset(k).0 < 0 ==> q.x == 255
    ensures p.y + Offset(k).1 < 0 ==> q.y == 255
  {
    Pos((p.x + Offset(k).0) % 256, (p.y + Offset(k).1) % 256)
  }

  /** `p` is joined to its edge node and to every same-coloured neighbour under an offset below `k`. */
  ghost predicate JoinedUpTo(uf: QuickUnionUf, g: Graph, p: Pos, k: nat)
    requires WellFormedGraph(g) && Sized(uf, g.dims) && OnBoard(g.dims, p)
  {
    && (SideOf(g.dims, p, g.c).Some? ==> SameNode(uf, g.dims, Cell(p), Side(SideOf(g.dims, p, g.c).value)))
    && (forall q :: OnBoard(g.dims, q) && Adjacent(p, q) && OffsetOf(p, q) < k && Has(g, q) ==>
          SameNode(uf, g.dims, Cell(p), Cell(q)))
  }

  /** The only on-board cell at offset `k` from `p` is `NeighbourCell(p, k)`. */
  lemma NeighbourUnique(dims: Pos, p: Pos, q: Pos)
    requires Adjacent(p, q) && OnBoard(dims, q)
    ensures q == NeighbourCell(p, OffsetOf(p, q))
  {
  }

  /** The neighbour under offset `k` is not a stone of the graph's colour: nothing to join. */
  lemma JoinSkip(uf: QuickUnionUf, g: Graph, p: Pos, k: nat)
    requires WellFormedGraph(g) && Sized(uf, g.dims) && OnBoard(g.dims, p) && k < 6
    requires JoinedUpTo(uf, g, p, k)
    requires !(OnBoard(g.dims, NeighbourCell(p, k)) && Has(g, NeighbourCell(p, k)))
    ensures JoinedUpTo(uf, g, p, k + 1)
  {
    forall q | OnBoard(g.dims, q) && Adjacent(p, q) && OffsetOf(p, q) < k + 1 && Has(g, q)
      ensures SameNode(uf, g.dims, Cell(p), Cell(q))
    {
      NeighbourUnique(g.dims, p, q);
    }
  }

  /** Joining `p` to the stone under offset `k` keeps the union-find ready and extends the join. */
  lemma JoinStep(uf: QuickUnionUf, g1: Graph, g2: Graph, p: Pos, k: nat)
    requires Ready(uf, g1, g2, p) && Has(g2, p) && k < 6
    requires g2.scope.hidden == None && InScope(g2.scope, p)
    requires JoinedUpTo(uf, g2, p, k)
    requires OnBoard(g2.dims, NeighbourCell(p, k)) && Has(g2, NeighbourCell(p, k))
    ensures Ready(Union(uf, Index(g2.dims, p), Index(g2.dims, NeighbourCell(p, k))), g1, g2, p)
    ensures JoinedUpTo(Union(uf, Index(g2.dims, p), Index(g2.dims, NeighbourCell(p, k))), g2, p, k + 1)
  {
    var cell := NeighbourCell(p, k);
    assert Adjacent(p, cell) && OffsetOf(p, cell) == k;
    assert Link(g2, Cell(p), Cell(cell));
    UnionSound(uf, g2, Cell(p), Cell(cell));
    UnionClosed(uf, g1, Index(g2.dims, p), Index(g2.dims, cell));
    JoinExtends(uf, g2, p, k);
  }

  /** Joining `p` to the edge node its colour and position call for starts the join. */
  lemma JoinSide(uf: QuickUnionUf, g1: Graph, g2: Graph, p: Pos)
    requires Ready(uf, g1, g2, p) && Has(g2, p)
    requires g2.scope.hidden == None && InScope(g2.scope, p)
    requires SideOf(g2.dims, p, g2.c).Some?
    ensures var e := EdgeIndex(g2.dims, SideOf(g2.dims, p, g2.c).value);
      var r := Union(uf, Index(g2.dims, p), e);
      Ready(r, g1, g2, p) && JoinedUpTo(r, g2, p, 0)
  {
    var side := SideOf(g2.dims, p, g2.c).value;
    UnionSound(uf, g2, Cell(p), Side(side));
    UnionClosed(uf, g1, Index(g2.dims, p), EdgeIndex(g2.dims, side));
  }

  /** The union `JoinStep` performs keeps every earlier join and adds the one under offset `k`. */
  lemma JoinExtends(uf: QuickUnionUf, g: Graph, p: Pos, k: nat)
    requires WellFormedGraph(g) && Sized(uf, g.dims) && OnBoard(g.dims, p) && k < 6
    requires JoinedUpTo(uf, g, p, k) && OnBoard(g.dims, NeighbourCell(p, k))
    ensures Sized(Union(uf, Index(g.dims, p), Index(g.dims, NeighbourCell(p, k))), g.dims)
    ensures JoinedUpTo(Union(uf, Index(g.dims, p), Index(g.dims, NeighbourCell(p, k))), g, p, k + 1)
  {
    var cell := NeighbourCell(p, k);
    var r := Union(uf, Index(g.dims, p), Index(g.dims, cell));
    forall q | OnBoard(g.dims, q) && Adjacent(p, q) && OffsetOf(p, q) < k + 1 && Has(g, q)
      ensures SameNode(r, g.dims, Cell(p), Cell(q))
    {
      if OffsetOf(p, q) == k {
        NeighbourUnique(g.dims, p, q);
      }
    }
  }

  // ---- the graphs `set` and `rebuild_groups` pass through ----

  /** Visiting the next cell of a column adds exactly the links touching it. */
  lemma GrowsRebuildStep(dims: Pos, cells: seq<Option<Color>>, c: Color, x: nat, y: nat)
    requires |cells| == Area(dims) && x < dims.x && y < dims.y
    ensures Grows(Graph(dims, cells, c, Scope(x, y, None)), Graph(dims, cells, c, Scope(x, y + 1, None)), Pos(x, y))
  {
  }

  /** A finished column is the same scope as the start of the next one. */
  lemma ColumnDone(dims: Pos, cells: seq<Option<Color>>, c: Color, x: nat, uf: QuickUnionUf)
    requires |cells| == Area(dims)
    requires Tracks(uf, Graph(dims, cells, c, Scope(x, dims.y, None)))
    ensures Tracks(uf, Graph(dims, cells, c, Scope(x + 1, 0, None)))
  {
    var g1, g2 := Graph(dims, cells, c, Scope(x, dims.y, None)), Graph(dims, cells, c, Scope(x + 1, 0, None));
    assert Sublinks(g1, g2) && Sublinks(g2, g1);
    SoundMono(uf, g1, g2);
  }

  /** Before any cell is visited there are no links. */
  lemma NothingVisited(dims: Pos, cells: seq<Option<Color>>, c: Color)
    requires |cells| == Area(dims)
    ensures Tracks(New(Area(dims) + 2), Graph(dims, cells, c, Scope(0, 0, None)))
  {
    NewTracks(Graph(dims, cells, c, Scope(0, 0, None)));
  }

  /** Once every column is visited the scope is the whole board. */
  lemma AllVisited(dims: Pos, cells: seq<Option<Color>>, c: Color, uf: QuickUnionUf)
    requires |cells| == Area(dims)
    requires Tracks(uf, Graph(dims, cells, c, Scope(dims.x, 0, None)))
    ensures Tracks(uf, Graph(dims, cells, c, FullScope(dims)))
  {
  }

  /**
   * Placing a stone of colour `col` on `p`, which was empty or already held `col`: the
   * union-find of the board before is ready for `update_groups(p)` on the board after,
   * with `p` hidden in the graph before.
   */
  lemma ReadyAfterSet(b: BoardState, p: Pos, col: Color, c: Color, uf: QuickUnionUf)
    requires WellFormed(b) && OnBoard(b.dims, p)
    requires StoneAt(b, p) == None || StoneAt(b, p) == Some(col)
    requires Tracks(uf, Full(b, c))
    ensures
      var b' := SetCell(b, p, Some(col));
      Ready(uf, Graph(b'.dims, b'.cells, c, Scope(b.dims.x, 0, Some(p))), Full(b', c), p)
  {
    var b' := SetCell(b, p, Some(col));
    var g0, g1, g2 := Full(b, c), Graph(b'.dims, b'.cells, c, Scope(b.dims.x, 0, Some(p))), Full(b', c);
    forall q | OnBoard(b.dims, q) && q != p ensures Has(g1, q) == Has(g0, q) && Has(g2, q) == Has(g0, q) {
      assert StoneAt(b', q) == StoneAt(b, q);
    }
    assert Sublinks(g0, g2) by {
      forall u, v | Link(g0, u, v) ensures Link(g2, u, v) {
        if StoneAt(b, p) == None {
          assert u != Cell(p) && v != Cell(p);
        }
      }
    }
    assert Sublinks(g1, g0);
    assert Sublinks(g1, g2);
    SoundMono(uf, g0, g2);
    ClosedAnti(uf, g1, g0);
  }

  // ---- who has won ----

  /**
   * `check_win`: Black wins when its edge nodes are connected (row 0 to the last row),
   * otherwise White when its edge nodes are (column 0 to the last column).
   */
  ghost function Winner(b: BoardState): Option<Color>
    requires WellFormed(b)
  {
    if Reach(Full(b, Black), Side(0), Side(1)) then Some(Black)
    else if Reach(Full(b, White), Side(0), Side(1)) then Some(White)
    else None
  }

  /** The winner has a stone on the board: connecting two edges takes a stone of that colour. */
  lemma WinnerHasStone(b: BoardState, c: Color)
    requires WellFormed(b) && Winner(b) == Some(c)
    ensures exists q :: OnBoard(b.dims, q) && StoneAt(b, q) == Some(c)
  {
    var g := Full(b, c);
    if forall q :: OnBoard(b.dims, q) ==> StoneAt(b, q) != Some(c) {
      forall v | true ensures !Link(g, v, Side(1)) {
        if v.Cell? && OnBoard(b.dims, v.pos) {
          assert StoneAt(b, v.pos) != Some(c);
        }
      }
      UnreachableSide(g, Side(0), 1);
    }
  }

  /** No link of `g` ends at edge node `k`: then nothing else reaches it. */
  lemma UnreachableSide(g: Graph, u: Node, k: nat)
    requires WellFormedGraph(g) && u != Side(k)
    requires forall v :: !Link(g, v, Side(k))
    ensures !Reach(g, u, Side(k))
  {
    forall path | IsPath(g, path) && path[0] == u
      ensures path[|path| - 1] != Side(k)
    {
      if |path| >= 2 {
        assert Link(g, path[|path| - 2], path[|path| - 1]);
      }
    }
  }

  /**
   * On a board with a single row every black stone is on row 0, and the first arm of the
   * match in `update_groups` joins it to edge 0 only: Black can never win there.
   */
  lemma OneRowBlackNeverWins(b: BoardState)
    requires WellFormed(b) && b.dims.y == 1
    ensures Winner(b) != Some(Black)
  {
    var g := Full(b, Black);
    forall v | true ensures !Link(g, v, Side(1)) {
      if v.Cell? && OnBoard(b.dims, v.pos) {
        assert v.pos.y == 0;
      }
    }
    UnreachableSide(g, Side(0), 1);
  }

  /** A column filled with black stones joins Black's two edges on a board of two rows or more. */
  lemma BlackColumnWins(b: BoardState, x: nat)
    requires WellFormed(b) && b.dims.y >= 2 && x < b.dims.x
    requires forall y: Coord :: y < b.dims.y ==> StoneAt(b, Pos(x, y)) == Some(Black)
    ensures Winner(b) == Some(Black)
  {
    var g := Full(b, Black);
    var h := b.dims.y;
    var column := seq(h, i requires 0 <= i < h => Cell(Pos(x, i)));
    var path := [Side(0)] + column + [Side(1)];
    forall i | 0 <= i < |path| - 1 ensures Link(g, path[i], path[i + 1]) {
      if i == 0 {
        assert path[1] == Cell(Pos(x, 0));
      } else if i == h {
        assert path[i] == Cell(Pos(x, h - 1)) && path[i + 1] == Side(1);
      } else {
        assert path[i] == Cell(Pos(x, i - 1)) && path[i + 1] == Cell(Pos(x, i));
      }
    }
    assert IsPath(g, path);
  }
}
