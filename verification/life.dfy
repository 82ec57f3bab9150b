/**
 * The Game of Life in core/views.py: the cells of the board, `process_cell` with its
 * birth and survival rules, the board the page view builds, and one tick of the
 * streaming view, which first computes every new value from the old generation and
 * only then writes them, emitting one Datastar patch block per tick.
 */
module Life {
  import opened Wrappers
  import opened Seqs
  import opened Grid
  import Decimal

  /** ConwayCell: `value` is 1 for a live cell, and `classValue` is its CSS class. */
  datatype Cell = Cell(index: int, value: int, classValue: string)

  /**
   * One entry of CONWAY_GRID: the cell and the board positions of its neighbours.
   * The source stores references to the neighbouring cell objects; a position in the
   * board denotes the same cell, and reading it at tick time sees its current value.
   */
  datatype Entry = Entry(self: Cell, neighbours: seq<int>)

  /** CONWAY_GRID: the entry of cell `i` at position `i`. */
  type Board = seq<Entry>

  /** The two states a cell is ever put in: live with class "alive", or dead with class "". */
  predicate Consistent(c: Cell) {
    || (c.value == 1 && c.classValue == "alive")
    || (c.value == 0 && c.classValue == "")
  }

  /** Every stored neighbour is a position of the board, so every lookup succeeds. */
  predicate Linked(board: Board) {
    forall i, k | 0 <= i < |board| && 0 <= k < |board[i].neighbours| ::
      0 <= board[i].neighbours[k] < |board|
  }

  /**
   * The invariant of a board built by the page view: cell `i` sits at position `i` in
   * one of the two consistent states, and its neighbour list names each cell of
   * `get_neighbour_indexes(i, size)` exactly once, in some order.
   */
  predicate WellFormed(board: Board, size: int) {
    && size > 0
    && |board| == size * size
    && forall i | 0 <= i < |board| ::
         && board[i].self.index == i
         && Consistent(board[i].self)
         && Distinct(board[i].neighbours)
         && Elems(board[i].neighbours) == NeighbourIndexes(i, size)
  }

  /** A consistent cell has class "alive" exactly when its value is 1. */
  lemma ConsistentClass(c: Cell)
    requires Consistent(c)
    ensures c.classValue == "alive" <==> c.value == 1
  {
  }

  /** A well-formed board only links to its own cells. */
  lemma WellFormedLinked(board: Board, size: int)
    requires WellFormed(board, size)
    ensures Linked(board)
  {
    forall i, k | 0 <= i < |board| && 0 <= k < |board[i].neighbours|
      ensures 0 <= board[i].neighbours[k] < |board|
    {
      NeighbourIndexesExact(i, size);
      assert board[i].neighbours[k] in Elems(board[i].neighbours);
    }
  }

  /** Every neighbour list in the order of `available_neigbors` enumerates its set. */
  lemma AllNeighbourListsEnumerate(size: int)
    requires size > 0
    ensures forall i | 0 <= i < size * size ::
              Distinct(NeighbourList(i, size)) && Elems(NeighbourList(i, size)) == NeighbourIndexes(i, size)
  {
    forall i | 0 <= i < size * size
      ensures Distinct(NeighbourList(i, size)) && Elems(NeighbourList(i, size)) == NeighbourIndexes(i, size)
    {
      NeighbourListEnumerates(i, size);
    }
  }

  /**
   * The board `ConwayView.get` builds. `seeds[i]` stands for the random draw of cell `i`
   * falling below 0.2, which makes the cell live.
   */
  function InitBoard(size: nat, seeds: seq<bool>): (board: Board)
    requires size > 0 && |seeds| == size * size
    ensures WellFormed(board, size)
    ensures forall i | 0 <= i < |board| :: board[i].self.value == 1 <==> seeds[i]
  {
    AllNeighbourListsEnumerate(size);
    seq(|seeds|, i requires 0 <= i < |seeds| =>
      Entry(if seeds[i] then Cell(i, 1, "alive") else Cell(i, 0, ""), NeighbourList(i, size)))
  }

  /** `sum(neighbour.value for neighbour in neighbours)` */
  function SumValues(cells: seq<Cell>): int
    decreases |cells|
  {
    if |cells| == 0 then 0 else cells[0].value + SumValues(cells[1..])
  }

  /** Conway's rule B3/S23: born with exactly three live neighbours, survives with two or three. */
  predicate LifeRule(alive: bool, liveNeighbours: int) {
    liveNeighbours == 3 || (alive && liveNeighbours == 2)
  }

  /** process_cell: the new value and class of `cell` given its neighbours. */
  function ProcessCell(cell: Cell, neighbours: seq<Cell>): (r: (int, string))
    ensures var n, alive := SumValues(neighbours), cell.value == 1;
            && (alive && n < 2 ==> r == (0, ""))
            && (alive && (n == 2 || n == 3) ==> r == (1, "alive"))
            && (alive && n > 3 ==> r == (0, ""))
            && (!alive && n == 3 ==> r == (1, "alive"))
            && (!alive && n != 3 ==> r == (0, ""))
    ensures Consistent(Cell(cell.index, r.0, r.1))
    ensures r.0 == 1 <==> LifeRule(cell.value == 1, SumValues(neighbours))
  {
    var n := SumValues(neighbours);
    var isAlive := cell.value == 1;
    if isAlive && n < 2 then (0, "")
    else if isAlive && (n == 2 || n == 3) then (1, "alive")
    else if isAlive && n > 3 then (0, "")
    else if !isAlive && n == 3 then (1, "alive")
    else (0, "")
  }

  /** The cells at the given positions, in that order. */
  function Pick(board: Board, ns: seq<int>): (cells: seq<Cell>)
    requires forall k | 0 <= k < |ns| :: 0 <= ns[k] < |board|
    ensures |cells| == |ns|
    decreases |ns|
  {
    if |ns| == 0 then [] else [board[ns[0]].self] + Pick(board, ns[1..])
  }

  /** `cell_lookup["neighbours"]` for cell `index`, read from the board as it is now. */
  function NeighbourCells(board: Board, index: int): seq<Cell>
    requires Linked(board) && 0 <= index < |board|
  {
    Pick(board, board[index].neighbours)
  }

  /** The entry `index` after one tick, computed from the old generation only. */
  function NextEntry(board: Board, index: int): Entry
    requires Linked(board) && 0 <= index < |board|
  {
    var r := ProcessCell(board[index].self, NeighbourCells(board, index));
    Entry(Cell(board[index].self.index, r.0, r.1), board[index].neighbours)
  }

  /** The generation a tick produces: every cell updated at once from the old one. */
  function NextGeneration(board: Board): Board
    requires Linked(board)
  {
    seq(|board|, i requires 0 <= i < |board| => NextEntry(board, i))
  }

  /** The patch line a tick emits for cell `index` with its new class. */
  function ElementLine(index: nat, classValue: string): string {
    "data: elements <div id=\"" + Decimal.Show(index) + "\" class=\"cell " + classValue + "\"></div>\n"
  }

  const PatchHeader: seq<string> := ["event: datastar-patch-elements\n", "data: mode outer\n"]

  /**
   * The patch block of one tick: a header, one element line per cell in index order
   * carrying the class just written, and a blank line; nothing for an empty board.
   */
  function PatchFrame(board: Board): (frame: seq<string>)
    ensures |board| == 0 ==> frame == []
    ensures |board| > 0 ==>
              && |frame| == |board| + 3
              && frame[..2] == PatchHeader
              && frame[|frame| - 1] == "\n"
              && forall i | 0 <= i < |board| :: frame[i + 2] == ElementLine(i, board[i].self.classValue)
  {
    if |board| == 0 then []
    else PatchHeader + seq(|board|, i requires 0 <= i < |board| => ElementLine(i, board[i].self.classValue)) + ["\n"]
  }

  /** A change the first loop records: `(index, new_value, new_class_value)`. */
  type Change = (int, int, string)

  /** The first loop of a tick: every new value, computed before any cell is written. */
  method CollectChanges(board: Board, size: nat) returns (changes: seq<Change>)
    requires |board| == size * size && Linked(board)
    ensures |changes| == |board|
    ensures forall k | 0 <= k < |board| ::
              changes[k] == (k, NextEntry(board, k).self.value, NextEntry(board, k).self.classValue)
  {
    changes := [];
    var index := 0;
    while index < size * size
      invariant 0 <= index <= |board|
      invariant |changes| == index
      invariant forall k | 0 <= k < index ::
                  changes[k] == (k, NextEntry(board, k).self.value, NextEntry(board, k).self.classValue)
    {
      var r := ProcessCell(board[index].self, NeighbourCells(board, index));
      changes := changes + [(index, r.0, r.1)];
      index := index + 1;
    }
  }

  /** The second loop of a tick: writes each recorded change and emits its element line. */
  method ApplyChanges(board: Board, changes: seq<Change>) returns (next: Board, lines: seq<string>)
    requires |changes| == |board|
    requires forall k | 0 <= k < |changes| :: changes[k].0 == k
    ensures |next| == |board| && |lines| == |board|
    ensures forall k | 0 <= k < |board| ::
              && next[k] == Entry(Cell(board[k].self.index, changes[k].1, changes[k].2), board[k].neighbours)
              && lines[k] == ElementLine(k, changes[k].2)
  {
    next := board;
    lines := [];
    var k := 0;
    while k < |changes|
      invariant 0 <= k <= |changes|
      invariant |next| == |board| && |lines| == k
      invariant forall m | 0 <= m < k ::
                  && next[m] == Entry(Cell(board[m].self.index, changes[m].1, changes[m].2), board[m].neighbours)
                  && lines[m] == ElementLine(m, changes[m].2)
      invariant forall m | k <= m < |board| :: next[m] == board[m]
    {
      var (index, newValue, newClassValue) := changes[k];
      var cell := next[index].self;
      next := next[index := Entry(Cell(cell.index, newValue, newClassValue), next[index].neighbours)];
      lines := lines + [ElementLine(index, newClassValue)];
      k := k + 1;
    }
  }

  /**
   * One tick of `conway_see_view`: the first loop collects `(index, value, class)` for
   * every cell from the old board, the second writes them and emits the patch block.
   */
  method Tick(board: Board, size: nat) returns (next: Board, frame: seq<string>)
    requires |board| == size * size && Linked(board)
    ensures next == NextGeneration(board)
    ensures frame == PatchFrame(next)
  {
    var changes := CollectChanges(board, size);
    next := board;
    frame := [];
    if |changes| > 0 {
      var lines;
      next, lines := ApplyChanges(board, changes);
      assert next == NextGeneration(board);
      assert lines == seq(|next|, i requires 0 <= i < |next| => ElementLine(i, next[i].self.classValue));
      frame := PatchHeader + lines + ["\n"];
    }
  }

  /** The live cells among the given positions. */
  function LiveAmong(board: Board, ns: set<int>): set<int> {
    set j | j in ns && 0 <= j < |board| && board[j].self.value == 1
  }

  /** The reference count: live board cells at most one row and one column away. */
  function LiveAround(board: Board, size: int, index: int): nat
    requires size > 0
  {
    |set j | 0 <= j < |board| && Adjacent(size, index, j) && board[j].self.value == 1|
  }

  /** Summing 0/1 values over distinct cells counts the live ones. */
  lemma {:induction false} SumCountsLive(board: Board, ns: seq<int>)
    requires forall k | 0 <= k < |ns| :: 0 <= ns[k] < |board|
    requires forall j | 0 <= j < |board| :: board[j].self.value == 0 || board[j].self.value == 1
    requires Distinct(ns)
    ensures SumValues(Pick(board, ns)) == |LiveAmong(board, Elems(ns))|
    decreases |ns|
  {
    if |ns| > 0 {
      var x, rest := ns[0], ns[1..];
      assert Distinct(rest);
      SumCountsLive(board, rest);
      assert Pick(board, ns)[1..] == Pick(board, rest);
      assert x !in Elems(rest);
      if board[x].self.value == 1 {
        assert LiveAmong(board, Elems(ns)) == {x} + LiveAmong(board, Elems(rest));
      } else {
        assert LiveAmong(board, Elems(ns)) == LiveAmong(board, Elems(rest));
      }
    }
  }

  /**
   * On a well-formed board, the neighbour sum `process_cell` takes is the number of live
   * adjacent cells, whatever order the neighbour list is in.
   */
  lemma NeighbourSumIsLiveAround(board: Board, size: int, index: int)
    requires WellFormed(board, size) && 0 <= index < |board|
    ensures Linked(board)
    ensures SumValues(NeighbourCells(board, index)) == LiveAround(board, size, index)
  {
    WellFormedLinked(board, size);
    NeighbourIndexesExact(index, size);
    var ns := board[index].neighbours;
    SumCountsLive(board, ns);
    assert LiveAmong(board, Elems(ns))
        == set j | 0 <= j < |board| && Adjacent(size, index, j) && board[j].self.value == 1;
  }

  /** A tick keeps the board well formed: it changes no neighbour list and writes consistent cells. */
  lemma NextGenerationWellFormed(board: Board, size: int)
    requires WellFormed(board, size)
    ensures Linked(board)
    ensures WellFormed(NextGeneration(board), size)
  {
    WellFormedLinked(board, size);
  }

  /**
   * A tick is one step of Conway's Game of Life on the board, without wrap-around:
   * cell `i` is live afterwards exactly when it had three live neighbours, or was live
   * with two. The board stays well formed.
   */
  lemma NextGenerationIsLife(board: Board, size: int)
    requires WellFormed(board, size)
    ensures Linked(board)
    ensures WellFormed(NextGeneration(board), size)
    ensures forall i | 0 <= i < |board| ::
              NextGeneration(board)[i].self.value == 1 <==>
                LifeRule(board[i].self.value == 1, LiveAround(board, size, i))
  {
    WellFormedLinked(board, size);
    forall i | 0 <= i < |board|
      ensures NextGeneration(board)[i].self.value == 1 <==>
                LifeRule(board[i].self.value == 1, LiveAround(board, size, i))
    {
      NeighbourSumIsLiveAround(board, size, i);
    }
  }

  /** Everything `conway_see_view` has emitted after a number of loop iterations. */
  datatype Run = Run(chunks: seq<string>, board: Option<Board>, failed: bool)

  const Connected: seq<string> := ["event: connected\n", "data:\n\n"]
  const Disconnected: seq<string> := ["event: disconnected\n", "data:\n\n"]

  /** The board after `k` ticks. */
  function Generation(board: Board, k: nat): (r: Board)
    requires Linked(board)
    ensures |r| == |board| && Linked(r)
    decreases k
  {
    if k == 0 then board else Generation(NextGeneration(board), k - 1)
  }

  /** One more tick after `k` ticks is one step from the board after `k` ticks. */
  lemma {:induction false} GenerationStep(board: Board, k: nat)
    requires Linked(board)
    ensures Generation(board, k + 1) == NextGeneration(Generation(board, k))
    decreases k
  {
    if k > 0 {
      GenerationStep(NextGeneration(board), k - 1);
    }
  }

  /**
   * Every generation the stream publishes is a well-formed board, so by
   * `NextGenerationIsLife` and `GenerationStep` each is one step of the Game of Life
   * from the one before.
   */
  lemma {:induction false} GenerationsWellFormed(board: Board, size: int, k: nat)
    requires WellFormed(board, size)
    ensures Linked(board)
    ensures WellFormed(Generation(board, k), size)
    decreases k
  {
    WellFormedLinked(board, size);
    if k > 0 {
      NextGenerationWellFormed(board, size);
      GenerationsWellFormed(NextGeneration(board), size, k - 1);
    }
  }

  /**
   * The patch blocks of the first `ticks` ticks, in order: tick `t` publishes the
   * board of generation `t`.
   */
  function Frames(board: Board, ticks: nat): seq<string>
    requires Linked(board)
  {
    Accumulate(FrameAt(board), ticks)
  }

  /** The patch block tick `t` sends. */
  function FrameAt(board: Board): nat -> seq<string>
    requires Linked(board)
  {
    (t: nat) => PatchFrame(Generation(board, t))
  }

  /**
   * The streaming view over `ticks` iterations of its loop: the connect event, then
   * the patch block of every tick in order. `board` is None while no page view has
   * built a board: the first lookup then fails, the view emits a disconnect event and
   * the error ends the stream. `cells` is the number of cells the loop visits,
   * `CONWAY_GRID_SIZE ** 2`.
   */
  function ConwayStream(board: Option<Board>, cells: nat, ticks: nat): (r: Run)
    requires board.Some? ==> |board.value| == cells && Linked(board.value)
    ensures Connected <= r.chunks
    ensures r.failed <==> board.None? && cells > 0 && ticks > 0
    ensures r.failed ==> r.chunks == Connected + Disconnected
    ensures board.Some? ==> !r.failed && r.board.Some? && |r.board.value| == cells
  {
    if board.None? then
      if cells > 0 && ticks > 0 then Run(Connected + Disconnected, None, true) else Run(Connected, None, false)
    else
      Run(Connected + Frames(board.value, ticks), Some(Generation(board.value, ticks)), false)
  }

  /**
   * One iteration of the loop: it computes the next generation of the board it holds,
   * appends that generation's patch block to what was sent, and holds the new board.
   */
  lemma ConwayStreamStep(board: Board, cells: nat, t: nat)
    requires |board| == cells && Linked(board) && t > 0
    ensures var before, after := ConwayStream(Some(board), cells, t - 1), ConwayStream(Some(board), cells, t);
            var next := NextGeneration(before.board.value);
            && after.chunks == before.chunks + PatchFrame(next)
            && after.board == Some(next)
  {
    GenerationStep(board, t - 1);
    var f := FrameAt(board);
    var next := Generation(board, t);
    assert f(t) == PatchFrame(next);
    assert Frames(board, t) == Frames(board, t - 1) + PatchFrame(next);
    AppendAssoc(Connected, Frames(board, t - 1), PatchFrame(next));
  }

  /** The stream only grows: what was sent after `t1` iterations begins what is sent after `t2`. */
  lemma ConwayStreamPrefix(board: Board, cells: nat, t1: nat, t2: nat)
    requires |board| == cells && Linked(board) && t1 <= t2
    ensures ConwayStream(Some(board), cells, t1).chunks <= ConwayStream(Some(board), cells, t2).chunks
  {
    AccumulatePrefix(FrameAt(board), t1, t2);
    var f1, f2 := Frames(board, t1), Frames(board, t2);
    assert (Connected + f2)[..|Connected + f1|] == Connected + f2[..|f1|];
  }

  /**
   * The stream over the boards the page view builds, with `CONWAY_GRID_SIZE ** 2`
   * cells: a board from any seeds drives it without failure and every generation it
   * reaches is well formed; before any page view has built a board, the first tick
   * fails.
   */
  lemma ConwayViewStream(seeds: seq<bool>, ticks: nat)
    requires |seeds| == ConwayGridSize * ConwayGridSize
    ensures var cells, board := ConwayGridSize * ConwayGridSize, InitBoard(ConwayGridSize, seeds);
            && Linked(board)
            && !ConwayStream(Some(board), cells, ticks).failed
            && WellFormed(ConwayStream(Some(board), cells, ticks).board.value, ConwayGridSize)
            && (ConwayStream(None, cells, ticks).failed <==> ticks > 0)
  {
    var board := InitBoard(ConwayGridSize, seeds);
    GenerationsWellFormed(board, ConwayGridSize, ticks);
  }
}
