// Model of internal/model/board.go: a size x size grid of cell strings,
// stored as one array per row, with bounds-checked reads and writes.
module Boards {

  class Board {
    const size: nat
    const cells: array<array<string>>

    /** The shape NewBoard builds: size distinct rows of size cells each. */
    ghost predicate Valid()
      reads cells
    {
      && cells.Length == size
      && (forall r :: 0 <= r < size ==> cells[r].Length == size)
      && (forall r, r' :: 0 <= r < r' < size ==> cells[r] != cells[r'])
    }

    /** NewBoard: allocates size rows of size empty cells, one row per loop step. */
    constructor (size: nat)
      ensures Valid() && this.size == size
      ensures fresh(cells) && forall r :: 0 <= r < size ==> fresh(cells[r])
      ensures forall r, c :: 0 <= r < size && 0 <= c < size ==> cells[r][c] == ""
    {
      this.size := size;
      var rows: seq<array<string>> := [];
      for i := 0 to size
        invariant |rows| == i
        invariant forall r :: 0 <= r < i ==> fresh(rows[r]) && rows[r].Length == size
        invariant forall r, c :: 0 <= r < i && 0 <= c < size ==> rows[r][c] == ""
        invariant forall r, r' :: 0 <= r < r' < i ==> rows[r] != rows[r']
      {
        var row := new string[size](_ => "");
        rows := rows + [row];
      }
      cells := new array<string>[size](r requires 0 <= r < size => rows[r]);
    }

    /** Whether (row, col) lies on the board. */
    predicate IsValidPosition(row: int, col: int)
    {
      row >= 0 && row < size && col >= 0 && col < size
    }

    /** GetCell: the stored piece, or "" for a coordinate off the board. */
    function GetCell(row: int, col: int): (piece: string)
      requires Valid()
      reads cells, cells[..]
      ensures !IsValidPosition(row, col) ==> piece == ""
      ensures IsValidPosition(row, col) ==> piece == cells[row][col]
    {
      if row < 0 || row >= size || col < 0 || col >= size then "" else cells[row][col]
    }

    /** SetCell: writes one cell in place; a coordinate off the board changes nothing. */
    method SetCell(row: int, col: int, piece: string)
      requires Valid()
      modifies cells[..]
      ensures Valid()
      ensures forall r, c :: 0 <= r < size && 0 <= c < size ==>
        cells[r][c] == if r == row && c == col then piece else old(cells[r][c])
      ensures GetCell(row, col) == if IsValidPosition(row, col) then piece else ""
    {
      if row >= 0 && row < size && col >= 0 && col < size {
        cells[row][col] := piece;
      }
    }
  }

  /** The bounds test accepts exactly the coordinates that index a stored cell. */
  lemma ValidPositionIsCell(b: Board, row: int, col: int)
    requires b.Valid()
    ensures b.IsValidPosition(row, col) <==>
      (0 <= row < b.cells.Length && 0 <= col < b.cells[row].Length)
  {
  }
}
