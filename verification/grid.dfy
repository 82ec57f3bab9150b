/**
 * Geometry of the Game of Life board in core/views.py: a `size` x `size` grid stored
 * row-major, cell `index` at row `index / size` and column `index % size`. The edge
 * predicates and the neighbour lookup are the ones the view computes once per cell
 * when it builds the board; the lookup intersects direction sets and never wraps round.
 */
module Grid {
  import opened Seqs

  /** CONWAY_GRID_SIZE: the board the views build is 100 x 100. */
  const ConwayGridSize: nat := 100

  function Row(index: int, size: int): int
    requires size > 0
  {
    index / size
  }

  function Col(index: int, size: int): int
    requires size > 0
  {
    index % size
  }

  /** is_top_row */
  predicate IsTopRow(index: int, size: int) {
    index < size
  }

  /** is_bottom_row */
  predicate IsBottomRow(index: int, size: int) {
    size * size - size <= index < size * size
  }

  /** is_left_row (Python's `%` agrees with Dafny's for a positive divisor). */
  predicate IsLeftRow(index: int, size: int)
    requires size > 0
  {
    index % size == 0
  }

  /** is_right_row */
  predicate IsRightRow(index: int, size: int)
    requires size > 0
  {
    (index + 1) % size == 0
  }

  /** The eight compass directions named in `available_neigbors`. */
  datatype Dir = T | TR | R | BR | B | BL | L | TL

  /** Row step of a direction: -1 is up. */
  function DRow(d: Dir): int {
    match d
    case T | TR | TL => -1
    case B | BR | BL => 1
    case R | L => 0
  }

  /** Column step of a direction: -1 is left. */
  function DCol(d: Dir): int {
    match d
    case TL | L | BL => -1
    case TR | R | BR => 1
    case T | B => 0
  }

  const AllDirs: set<Dir> := {T, TR, R, BR, B, BL, L, TL}
  const TopDirs: set<Dir> := {L, R, B, BL, BR}
  const BottomDirs: set<Dir> := {L, R, T, TL, TR}
  const LeftDirs: set<Dir> := {T, R, B, TR, BR}
  const RightDirs: set<Dir> := {T, L, B, TL, BL}

  /** The order in which `available_neigbors` lists the directions. */
  const DirOrder: seq<Dir> := [T, TR, R, BR, B, BL, L, TL]

  /** The direction set left after the four edge tests, in the order the source applies them. */
  function Restrict(top: bool, left: bool, right: bool, bottom: bool): set<Dir> {
    var n0 := AllDirs;
    var n1 := if top then n0 * TopDirs else n0;
    var n2 := if left then n1 * LeftDirs else n1;
    var n3 := if right then n2 * RightDirs else n2;
    if bottom then n3 * BottomDirs else n3
  }

  /** The directions `get_neighbour_indexes` keeps for `index`. */
  function Available(index: int, size: int): set<Dir>
    requires size > 0
  {
    Restrict(IsTopRow(index, size), IsLeftRow(index, size), IsRightRow(index, size), IsBottomRow(index, size))
  }

  /** The index one step in direction `d`, written per direction as the source does. */
  function Offset(index: int, size: int, d: Dir): int {
    match d
    case T => index - size
    case TR => index - size + 1
    case R => index + 1
    case BR => index + size + 1
    case B => index + size
    case BL => index + size - 1
    case L => index - 1
    case TL => index - size - 1
  }

  /**
   * get_neighbour_indexes. The source builds its list by iterating a Python set, whose
   * order is not fixed; the set of indexes it returns is what is modelled.
   */
  function NeighbourIndexes(index: int, size: int): set<int>
    requires size > 0
  {
    set d | d in Available(index, size) :: Offset(index, size, d)
  }

  /** The reference notion: another cell of the board at most one row and one column away. */
  predicate Adjacent(size: int, i: int, j: int)
    requires size > 0
  {
    && 0 <= j < size * size
    && j != i
    && -1 <= Row(j, size) - Row(i, size) <= 1
    && -1 <= Col(j, size) - Col(i, size) <= 1
  }

  lemma MulNonNegative(a: int, b: int)
    requires a >= 0 && b >= 0
    ensures a * b >= 0
  {
  }

  /** Row and column of a cell are the unique quotient and remainder. */
  lemma DivModUnique(j: int, size: int, q: int, m: int)
    requires size > 0 && 0 <= m < size && j == q * size + m
    ensures j / size == q && j % size == m
  {
    var q', m' := j / size, j % size;
    var k := q - q';
    assert k * size == m' - m by {
      assert q * size - q' * size == k * size;
    }
    if k >= 1 {
      assert k * size == size + (k - 1) * size;
      MulNonNegative(k - 1, size);
    } else if k <= -1 {
      assert -k * size == size + (-k - 1) * size;
      MulNonNegative(-k - 1, size);
    }
  }

  /** A cell of the board has a row and a column inside the board. */
  lemma RowColInRange(index: int, size: int)
    requires size > 0 && 0 <= index < size * size
    ensures 0 <= Row(index, size) < size && 0 <= Col(index, size) < size
    ensures index == Row(index, size) * size + Col(index, size)
  {
  }

  /** A row and a column inside the board give a cell of the board. */
  lemma CellInRange(r: int, c: int, size: int)
    requires size > 0 && 0 <= r < size && 0 <= c < size
    ensures 0 <= r * size + c < size * size
    ensures Row(r * size + c, size) == r && Col(r * size + c, size) == c
  {
    MulNonNegative(r, size);
    MulNonNegative(size - 1 - r, size);
    assert (size - 1 - r) * size == size * size - size - r * size;
    DivModUnique(r * size + c, size, r, c);
  }

  lemma TopRowExact(index: int, size: int)
    requires size > 0 && 0 <= index < size * size
    ensures IsTopRow(index, size) <==> Row(index, size) == 0
  {
    RowColInRange(index, size);
    var r := Row(index, size);
    if r >= 1 {
      assert r * size == (r - 1) * size + size;
      MulNonNegative(r - 1, size);
    }
  }

  lemma BottomRowExact(index: int, size: int)
    requires size > 0 && 0 <= index < size * size
    ensures IsBottomRow(index, size) <==> Row(index, size) == size - 1
  {
    RowColInRange(index, size);
    var r := Row(index, size);
    assert (size - 1) * size == size * size - size;
    if r <= size - 2 {
      assert (size - 1) * size == r * size + (size - 1 - r) * size;
      assert (size - 1 - r) * size == size + (size - 2 - r) * size;
      MulNonNegative(size - 2 - r, size);
    }
  }

  lemma RightColumnExact(index: int, size: int)
    requires size > 0 && 0 <= index < size * size
    ensures IsRightRow(index, size) <==> Col(index, size) == size - 1
  {
    RowColInRange(index, size);
    var r, c := Row(index, size), Col(index, size);
    if c == size - 1 {
      DivModUnique(index + 1, size, r + 1, 0);
    } else {
      DivModUnique(index + 1, size, r, c + 1);
    }
  }

  /** The edge predicates hold exactly on row 0, the last row, column 0 and the last column. */
  lemma EdgePredicates(index: int, size: int)
    requires size > 0 && 0 <= index < size * size
    ensures IsTopRow(index, size) <==> Row(index, size) == 0
    ensures IsBottomRow(index, size) <==> Row(index, size) == size - 1
    ensures IsLeftRow(index, size) <==> Col(index, size) == 0
    ensures IsRightRow(index, size) <==> Col(index, size) == size - 1
  {
    TopRowExact(index, size);
    BottomRowExact(index, size);
    RightColumnExact(index, size);
  }

  /** A direction survives the edge tests exactly when its step stays on the board. */
  lemma AvailableExact(index: int, size: int, d: Dir)
    requires size > 0 && 0 <= index < size * size
    ensures d in Available(index, size) <==>
              && 0 <= Row(index, size) + DRow(d) < size
              && 0 <= Col(index, size) + DCol(d) < size
  {
    EdgePredicates(index, size);
    RowColInRange(index, size);
  }

  /** One step in direction `d` moves by `DRow(d)` rows and `DCol(d)` columns. */
  lemma OffsetMoves(index: int, size: int, d: Dir)
    requires size > 0 && 0 <= index < size * size && d in Available(index, size)
    ensures var r, c := Row(index, size) + DRow(d), Col(index, size) + DCol(d);
            Offset(index, size, d) == r * size + c && Adjacent(size, index, Offset(index, size, d))
  {
    AvailableExact(index, size, d);
    RowColInRange(index, size);
    var r, c := Row(index, size) + DRow(d), Col(index, size) + DCol(d);
    assert Offset(index, size, d) == index + DRow(d) * size + DCol(d);
    assert (Row(index, size) + DRow(d)) * size == Row(index, size) * size + DRow(d) * size;
    CellInRange(r, c, size);
  }

  /** The direction whose row and column steps are `dr` and `dc`. */
  function DirOf(dr: int, dc: int): (d: Dir)
    requires -1 <= dr <= 1 && -1 <= dc <= 1 && (dr, dc) != (0, 0)
    ensures DRow(d) == dr && DCol(d) == dc
  {
    if dr == -1 then (if dc == -1 then TL else if dc == 0 then T else TR)
    else if dr == 0 then (if dc == -1 then L else R)
    else (if dc == -1 then BL else if dc == 0 then B else BR)
  }

  /**
   * The neighbour set of a cell is exactly the set of board cells adjacent to it:
   * no index outside `[0, size * size)`, no wrap-around across rows or columns,
   * and never the cell itself.
   */
  lemma NeighbourIndexesExact(index: int, size: int)
    requires size > 0 && 0 <= index < size * size
    ensures forall j :: j in NeighbourIndexes(index, size) <==> Adjacent(size, index, j)
  {
    forall j | j in NeighbourIndexes(index, size)
      ensures Adjacent(size, index, j)
    {
      var d :| d in Available(index, size) && Offset(index, size, d) == j;
      OffsetMoves(index, size, d);
    }
    forall j | Adjacent(size, index, j)
      ensures j in NeighbourIndexes(index, size)
    {
      RowColInRange(index, size);
      RowColInRange(j, size);
      var d := DirOf(Row(j, size) - Row(index, size), Col(j, size) - Col(index, size));
      AvailableExact(index, size, d);
      OffsetMoves(index, size, d);
    }
  }

  /** Different available directions lead to different cells. */
  lemma OffsetInjective(index: int, size: int, d1: Dir, d2: Dir)
    requires size > 0 && 0 <= index < size * size
    requires d1 in Available(index, size) && d2 in Available(index, size)
    requires Offset(index, size, d1) == Offset(index, size, d2)
    ensures d1 == d2
  {
    OffsetMoves(index, size, d1);
    OffsetMoves(index, size, d2);
    AvailableExact(index, size, d1);
    AvailableExact(index, size, d2);
    var j := Offset(index, size, d1);
    DivModUnique(j, size, Row(index, size) + DRow(d1), Col(index, size) + DCol(d1));
    DivModUnique(j, size, Row(index, size) + DRow(d2), Col(index, size) + DCol(d2));
  }

  /** The directions of `ds` that are in `keep`, in the order of `ds`. */
  function FilterDirs(ds: seq<Dir>, keep: set<Dir>): (r: seq<Dir>)
    ensures forall d :: d in r <==> d in ds && d in keep
    ensures Distinct(ds) ==> Distinct(r)
    decreases |ds|
  {
    if |ds| == 0 then []
    else if ds[0] in keep then [ds[0]] + FilterDirs(ds[1..], keep)
    else FilterDirs(ds[1..], keep)
  }

  /**
   * The neighbour indexes listed in the order of `available_neigbors`. Any other order,
   * such as the one the Python set happens to produce, is a permutation of this one.
   */
  function NeighbourList(index: int, size: int): (ns: seq<int>)
    requires size > 0
  {
    var ds := FilterDirs(DirOrder, Available(index, size));
    seq(|ds|, k requires 0 <= k < |ds| => Offset(index, size, ds[k]))
  }

  /** No neighbour index is listed twice. */
  lemma NeighbourListDistinct(index: int, size: int)
    requires size > 0 && 0 <= index < size * size
    ensures Distinct(NeighbourList(index, size))
  {
    var ds := FilterDirs(DirOrder, Available(index, size));
    var ns := NeighbourList(index, size);
    DirOrderComplete();
    forall i, j | 0 <= i < j < |ns|
      ensures ns[i] != ns[j]
    {
      if ns[i] == ns[j] {
        OffsetInjective(index, size, ds[i], ds[j]);
      }
    }
  }

  /** Every direction appears once in `DirOrder`. */
  lemma DirOrderComplete()
    ensures Distinct(DirOrder)
    ensures forall d: Dir :: d in DirOrder
  {
    forall d: Dir
      ensures d in DirOrder
    {
      match d
      case T => assert DirOrder[0] == d;
      case TR => assert DirOrder[1] == d;
      case R => assert DirOrder[2] == d;
      case BR => assert DirOrder[3] == d;
      case B => assert DirOrder[4] == d;
      case BL => assert DirOrder[5] == d;
      case L => assert DirOrder[6] == d;
      case TL => assert DirOrder[7] == d;
    }
  }

  /** The list holds each neighbour index exactly once. */
  lemma NeighbourListEnumerates(index: int, size: int)
    requires size > 0 && 0 <= index < size * size
    ensures Distinct(NeighbourList(index, size))
    ensures Elems(NeighbourList(index, size)) == NeighbourIndexes(index, size)
    ensures |NeighbourList(index, size)| == |Available(index, size)|
  {
    NeighbourListDistinct(index, size);
    DirOrderComplete();
    var a := Available(index, size);
    FilterEnumerates(DirOrder, a);
    ListImage(index, size, FilterDirs(DirOrder, a), a);
  }

  /** Stepping from `index` along a list of directions reaches the image of its elements. */
  lemma ListImage(index: int, size: int, ds: seq<Dir>, a: set<Dir>)
    requires Elems(ds) == a
    ensures var ns := seq(|ds|, k requires 0 <= k < |ds| => Offset(index, size, ds[k]));
            Elems(ns) == set d | d in a :: Offset(index, size, d)
  {
    var ns := seq(|ds|, k requires 0 <= k < |ds| => Offset(index, size, ds[k]));
    forall j | j in set d | d in a :: Offset(index, size, d)
      ensures j in Elems(ns)
    {
      var d :| d in a && Offset(index, size, d) == j;
      var k :| 0 <= k < |ds| && ds[k] == d;
      assert ns[k] == j;
    }
  }

  /** Filtering a list of every direction, each once, enumerates the kept set. */
  lemma FilterEnumerates(ds: seq<Dir>, keep: set<Dir>)
    requires Distinct(ds) && forall d: Dir :: d in ds
    ensures Elems(FilterDirs(ds, keep)) == keep
    ensures |FilterDirs(ds, keep)| == |keep|
  {
    var r := FilterDirs(ds, keep);
    assert Elems(r) == keep;
    DistinctCard(r);
  }

  /** How many of the rows (or columns) `x - 1`, `x`, `x + 1` lie on the board. */
  function Span(x: int, size: int): nat {
    (if x > 0 then 1 else 0) + 1 + (if x < size - 1 then 1 else 0)
  }

  /** The number of directions the edge tests keep. */
  lemma RestrictCard(top: bool, left: bool, right: bool, bottom: bool)
    requires (top && left && right && bottom) || (!(top && bottom) && !(left && right))
    ensures |Restrict(top, left, right, bottom)| ==
              (3 - (if top then 1 else 0) - (if bottom then 1 else 0))
              * (3 - (if left then 1 else 0) - (if right then 1 else 0)) - 1
  {
    var s := Restrict(top, left, right, bottom);
    if top && left && right && bottom {
      assert s == {};
    } else if top && left {
      assert s == {R, B, BR};
    } else if top && right {
      assert s == {L, B, BL};
    } else if top {
      assert s == {L, R, B, BL, BR};
    } else if bottom && left {
      assert s == {T, R, TR};
    } else if bottom && right {
      assert s == {T, L, TL};
    } else if bottom {
      assert s == {L, R, T, TL, TR};
    } else if left {
      assert s == {T, R, B, TR, BR};
    } else if right {
      assert s == {T, L, B, TL, BL};
    } else {
      assert s == AllDirs;
    }
  }

  /**
   * A cell has one neighbour for every board cell in the 3 x 3 block around it,
   * other than itself.
   */
  lemma NeighbourCount(index: int, size: int)
    requires size > 0 && 0 <= index < size * size
    ensures |NeighbourIndexes(index, size)| == Span(Row(index, size), size) * Span(Col(index, size), size) - 1
  {
    EdgePredicates(index, size);
    RowColInRange(index, size);
    RestrictCard(IsTopRow(index, size), IsLeftRow(index, size), IsRightRow(index, size), IsBottomRow(index, size));
    NeighbourListEnumerates(index, size);
    DistinctCard(NeighbourList(index, size));
  }

  predicate OnEdge(x: int, size: int) {
    x == 0 || x == size - 1
  }

  /**
   * The lone cell of a 1 x 1 board has no neighbours; a corner has 3, a cell on an edge
   * but not in a corner has 5, and a cell off the edges has 8.
   */
  lemma NeighbourCounts(index: int, size: int)
    requires size > 0 && 0 <= index < size * size
    ensures size == 1 ==> NeighbourIndexes(index, size) == {}
    ensures (size >= 2 && OnEdge(Row(index, size), size) && OnEdge(Col(index, size), size))
              ==> |NeighbourIndexes(index, size)| == 3
    ensures (size >= 2 && OnEdge(Row(index, size), size) != OnEdge(Col(index, size), size))
              ==> |NeighbourIndexes(index, size)| == 5
    ensures (!OnEdge(Row(index, size), size) && !OnEdge(Col(index, size), size))
              ==> |NeighbourIndexes(index, size)| == 8
  {
    NeighbourCount(index, size);
    RowColInRange(index, size);
  }
}
