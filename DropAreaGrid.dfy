/**
 * `DropAreaGrid`: builds the `rows` x `columns` table of drop cells, gives
 * each cell its logical row and column and its bonus from the first
 * matching entry of `specialCells`, and answers lookups by index and by
 * nearest position.  Cell positions follow an abstract integer layout: the
 * first cell at `firstCell`, then `pitch` steps per column to the right
 * and per row downward; the float arithmetic that centres the grid, and the
 * background and collider sizes, are not part of this model.
 */
module DropGrid {
  import opened Wrappers
  import opened Geometry
  import opened Nearest
  import opened DropCell

  /** `SpecialCellConfig`. */
  datatype SpecialCellConfig = SpecialCellConfig(row: int, column: int, bonusType: CellBonusType, percentValue: real)

  predicate Matches(conf: SpecialCellConfig, row: int, column: int)
  {
    conf.row == row && conf.column == column
  }

  /** The position of the first config for that cell; `|configs|` when
      there is none. */
  function FirstMatch(configs: seq<SpecialCellConfig>, row: int, column: int): (k: nat)
    ensures k <= |configs|
    ensures k < |configs| ==> Matches(configs[k], row, column)
    ensures forall j :: 0 <= j < k ==> !Matches(configs[j], row, column)
    decreases |configs|
  {
    if |configs| == 0 then 0
    else if Matches(configs[0], row, column) then 0
    else 1 + FirstMatch(configs[1..], row, column)
  }

  /** One scan entry per enumerated cell: its squared distance, or nothing
      for an empty slot. */
  function Candidates(cells: seq<DropAreaCell?>, p: Pos): (ds: seq<Option<nat>>)
    ensures |ds| == |cells|
    ensures forall i :: 0 <= i < |cells| ==>
      ds[i] == if cells[i] == null then None else Some(DistSq(p, cells[i].position))
  {
    seq(|cells|, i requires 0 <= i < |cells| =>
      if cells[i] == null then None else Some(DistSq(p, cells[i].position)))
  }

  lemma CandidatesSnoc(cells: seq<DropAreaCell?>, cell: DropAreaCell?, p: Pos)
    ensures Candidates(cells + [cell], p) ==
      Candidates(cells, p) + [if cell == null then None else Some(DistSq(p, cell.position))]
  {
  }

  class DropAreaGrid {
    const rows: nat
    const columns: nat
    /** `cellPrefab != null`, and whether the prefab has a sprite renderer. */
    const hasCellPrefab: bool
    const prefabHasRenderer: bool
    const prefabColor: Color
    const specialCells: seq<SpecialCellConfig>
    /** The layout: the first cell's world position and the step between
        neighbouring cells (cell size plus spacing). */
    const firstCell: Pos
    const pitch: Pos
    /** `_cells`; `null` until the grid is built. */
    var cells: array2?<DropAreaCell?>

    constructor (rows: nat, columns: nat, hasCellPrefab: bool, prefabHasRenderer: bool, prefabColor: Color,
                 specialCells: seq<SpecialCellConfig>, firstCell: Pos, pitch: Pos)
      ensures this.rows == rows && this.columns == columns && this.hasCellPrefab == hasCellPrefab
      ensures this.prefabHasRenderer == prefabHasRenderer && this.prefabColor == prefabColor
      ensures this.specialCells == specialCells && this.firstCell == firstCell && this.pitch == pitch
      ensures cells == null
      ensures Valid()
    {
      this.rows := rows;
      this.columns := columns;
      this.hasCellPrefab := hasCellPrefab;
      this.prefabHasRenderer := prefabHasRenderer;
      this.prefabColor := prefabColor;
      this.specialCells := specialCells;
      this.firstCell := firstCell;
      this.pitch := pitch;
      cells := null;
    }

    /** A built table has the grid's dimensions. */
    predicate Valid()
      reads this`cells
    {
      cells != null ==> cells.Length0 == rows && cells.Length1 == columns
    }

    /** Where the cell at (r, c) stands. */
    function CellPosition(r: int, c: int): Pos
    {
      Pos(firstCell.x + c * pitch.x, firstCell.y - r * pitch.y)
    }

    /** The bonus data and tint `ApplySpecialConfigToCell` leaves on a cell. */
    predicate Configured(cell: DropAreaCell, row: int, column: int)
      reads cell`bonusType, cell`percentValue, cell`color
    {
      var k := FirstMatch(specialCells, row, column);
      (k < |specialCells| ==>
        cell.bonusType == specialCells[k].bonusType && cell.percentValue == specialCells[k].percentValue) &&
      (k == |specialCells| ==> cell.bonusType == NoBonus && cell.percentValue == 0.0) &&
      (cell.hasRenderer ==> cell.color == TintFor(cell.bonusType, cell.percentValue))
    }

    /** A cell as `RebuildGrid` leaves it at (r, c). */
    predicate BuiltCell(cell: DropAreaCell?, r: int, c: int)
      reads {cell}`row, {cell}`column, {cell}`bonusType, {cell}`percentValue, {cell}`color
    {
      cell != null && cell.row == r && cell.column == c && cell.position == CellPosition(r, c) &&
      cell.hasRenderer == prefabHasRenderer && Configured(cell, r, c)
    }

    /** `ApplySpecialConfigToCell`: the first config for the cell wins;
        without one the cell is reset to no bonus and zero percent. */
    method ApplySpecialConfigToCell(cell: DropAreaCell, row: int, column: int)
      modifies cell`bonusType, cell`percentValue, cell`color
      ensures Configured(cell, row, column)
    {
      for i := 0 to |specialCells|
        invariant forall j :: 0 <= j < i ==> !Matches(specialCells[j], row, column)
      {
        var conf := specialCells[i];
        if conf.row == row && conf.column == column {
          cell.bonusType := conf.bonusType;
          cell.percentValue := conf.percentValue;
          cell.UpdateColor();
          return;
        }
      }
      cell.bonusType := NoBonus;
      cell.percentValue := 0.0;
      cell.UpdateColor();
    }

    /** `RebuildGrid`: nothing without a prefab; otherwise a new table of
        new cells, each with its row, column, position and bonus. */
    method RebuildGrid()
      requires Valid()
      modifies this`cells
      ensures Valid()
      ensures !hasCellPrefab ==> cells == old(cells)
      ensures hasCellPrefab ==>
        cells != null && fresh(cells) &&
        forall r, c :: 0 <= r < rows && 0 <= c < columns ==> BuiltCell(cells[r, c], r, c)
    {
      if !hasCellPrefab {
        return;
      }
      var table := new DropAreaCell?[rows, columns];
      cells := table;
      for r := 0 to rows
        invariant cells == table
        invariant forall i, j :: 0 <= i < r && 0 <= j < columns ==> BuiltCell(table[i, j], i, j)
      {
        BuildRow(table, r);
      }
    }

    /** The inner loop of `RebuildGrid`: a new cell for each column of row `r`. */
    method BuildRow(table: array2<DropAreaCell?>, r: nat)
      requires table.Length0 == rows && table.Length1 == columns && r < rows
      modifies table
      ensures forall j :: 0 <= j < columns ==> BuiltCell(table[r, j], r, j)
      ensures forall i, j :: 0 <= i < rows && i != r && 0 <= j < columns ==> table[i, j] == old(table[i, j])
    {
      for c := 0 to columns
        invariant forall j :: 0 <= j < c ==> BuiltCell(table[r, j], r, j)
        invariant forall i, j :: 0 <= i < rows && i != r && 0 <= j < columns ==> table[i, j] == old(table[i, j])
      {
        var cell := new DropAreaCell(CellPosition(r, c), prefabHasRenderer, prefabColor);
        cell.row := r;
        cell.column := c;
        ApplySpecialConfigToCell(cell, r, c);
        table[r, c] := cell;
      }
    }

    /** `GetCell`: null before the grid is built and outside the table. */
    function GetCell(row: int, column: int): (cell: DropAreaCell?)
      requires Valid()
      reads this`cells, cells
      ensures cells == null || !(0 <= row < rows && 0 <= column < columns) ==> cell == null
      ensures cells != null && 0 <= row < rows && 0 <= column < columns ==> cell == cells[row, column]
    {
      if cells == null then null
      else if row < 0 || row >= rows || column < 0 || column >= columns then null
      else cells[row, column]
    }

    /** Row `r` of the table, left to right. */
    function Row(r: nat): (s: seq<DropAreaCell?>)
      requires Valid() && cells != null && r < rows
      reads this`cells, cells
      ensures |s| == columns && forall c :: 0 <= c < columns ==> s[c] == cells[r, c]
    {
      var a := cells;
      seq(columns, c requires 0 <= c < columns reads a => a[r, c])
    }

    /** The first `n` rows in the order `foreach` enumerates a 2-D array:
        row by row, each left to right. */
    function RowMajor(n: nat): seq<DropAreaCell?>
      requires Valid() && cells != null && n <= rows
      reads this`cells, cells
      decreases n
    {
      if n == 0 then [] else RowMajor(n - 1) + Row(n - 1)
    }

    /** Every entry of the first `n` rows is enumerated. */
    lemma {:induction false} RowMajorHolds(n: nat, r: nat, c: nat)
      requires Valid() && cells != null && n <= rows && r < n && c < columns
      ensures cells[r, c] in RowMajor(n)
      decreases n
    {
      if r < n - 1 {
        RowMajorHolds(n - 1, r, c);
      } else {
        assert Row(r)[c] == cells[r, c];
      }
    }

    /** The cells in enumeration order; none before the grid is built. */
    function Enumerated(): seq<DropAreaCell?>
      requires Valid()
      reads this`cells, cells
    {
      if cells == null then [] else RowMajor(rows)
    }

    /**
     * `GetClosestCell(worldPos, out distance)`: the nearest cell in
     * enumeration order with a strict `<`, so ties go to the cell
     * enumerated first; `distance` is its squared distance, `None` standing
     * for the initial `float.MaxValue` when there is no cell.
     */
    method GetClosestCell(worldPos: Pos) returns (best: DropAreaCell?, distance: Option<nat>)
      requires Valid()
      ensures Tracks(Enumerated(), worldPos, best, distance)
    {
      distance := None;
      best := null;
      if cells == null {
        return;
      }
      for r := 0 to rows
        invariant Tracks(RowMajor(r), worldPos, best, distance)
      {
        best, distance := ScanRow(r, worldPos, RowMajor(r), best, distance);
      }
    }

    /** The `foreach` over one row of the table. */
    method ScanRow(r: nat, worldPos: Pos, ghost scanned: seq<DropAreaCell?>, best0: DropAreaCell?, distance0: Option<nat>)
      returns (best: DropAreaCell?, distance: Option<nat>)
      requires Valid() && cells != null && r < rows
      requires Tracks(scanned, worldPos, best0, distance0)
      ensures Tracks(scanned + Row(r), worldPos, best, distance)
    {
      best, distance := best0, distance0;
      assert scanned + Row(r)[..0] == scanned;
      for c := 0 to columns
        invariant Tracks(scanned + Row(r)[..c], worldPos, best, distance)
      {
        var cell := cells[r, c];
        ghost var before := scanned + Row(r)[..c];
        assert scanned + Row(r)[..c + 1] == before + [cell];
        best, distance := ScanCell(worldPos, before, cell, best, distance);
      }
      assert Row(r)[..columns] == Row(r);
    }

    /** One pass of the `foreach`: a null cell is skipped, a cell strictly
        closer than the best so far replaces it. */
    method ScanCell(worldPos: Pos, ghost before: seq<DropAreaCell?>, cell: DropAreaCell?,
                    best0: DropAreaCell?, distance0: Option<nat>)
      returns (best: DropAreaCell?, distance: Option<nat>)
      requires Tracks(before, worldPos, best0, distance0)
      ensures Tracks(before + [cell], worldPos, best, distance)
    {
      best, distance := best0, distance0;
      CandidatesSnoc(before, cell, worldPos);
      FirstArgMinSnoc(Candidates(before, worldPos), if cell == null then None else Some(DistSq(worldPos, cell.position)));
      if cell == null {
        return;
      }
      var d := DistSq(worldPos, cell.position);
      if distance.None? || d < distance.value {
        distance := Some(d);
        best := cell;
      }
    }
  }

  /** `best` and `distance` are what a forward scan with a strict `<` over
      `scanned` has kept: the first nearest cell and its squared distance. */
  predicate Tracks(scanned: seq<DropAreaCell?>, p: Pos, best: DropAreaCell?, distance: Option<nat>)
  {
    var k := FirstArgMin(Candidates(scanned, p));
    best == (if k.Some? then scanned[k.value] else null) &&
    distance == (if k.Some? then Some(DistSq(p, best.position)) else None)
  }

  /** The closest cell is at minimal distance among all cells, strictly
      closer than every cell enumerated before it, and there is none exactly
      when the grid has no cell. */
  lemma ClosestCellProperties(cells: seq<DropAreaCell?>, p: Pos)
    ensures var k := FirstArgMin(Candidates(cells, p));
      (k.Some? ==>
        cells[k.value] != null &&
        forall i :: 0 <= i < |cells| && cells[i] != null ==>
          DistSq(p, cells[k.value].position) <= DistSq(p, cells[i].position)) &&
      (k.Some? ==> forall i :: 0 <= i < k.value && cells[i] != null ==>
          DistSq(p, cells[k.value].position) < DistSq(p, cells[i].position)) &&
      (k.None? <==> forall i :: 0 <= i < |cells| ==> cells[i] == null)
  {
    FirstArgMinProperties(Candidates(cells, p));
  }
}
