// Model of the board-drawing loop in main.go: a size x size checkerboard
// drawn as text, one line per row, ' ' for light squares and '#' for dark.
module Checkerboard {

  /** The side length main draws. */
  const MainSize: nat := 8

  /** The square at row i, column j: light when i + j is even. */
  function Square(i: int, j: int): char
  {
    if (i + j) % 2 == 0 then ' ' else '#'
  }

  /** One drawn row: its size squares and a line break. */
  function Row(i: int, size: nat): (r: string)
    ensures |r| == size + 1
  {
    seq(size, j => Square(i, j)) + "\n"
  }

  /** The first k rows of the drawing, top to bottom; each row takes size + 1 characters. */
  function Rows(k: nat, size: nat): (r: string)
    ensures |r| == k * (size + 1)
  {
    if k == 0 then "" else Rows(k - 1, size) + Row(k - 1, size)
  }

  /** The number of times c occurs in s. */
  function Occurrences(s: string, c: char): nat
  {
    if s == [] then 0 else (if s[0] == c then 1 else 0) + Occurrences(s[1..], c)
  }

  /** The drawing loop: appends the squares of each row, then a line break, one character at a time. */
  method Draw(size: nat) returns (board: string)
    ensures board == Rows(size, size)
  {
    board := "";
    for i := 0 to size
      invariant board == Rows(i, size)
    {
      for j := 0 to size
        invariant board == Rows(i, size) + seq(j, k => Square(i, k))
      {
        if (i + j) % 2 == 0 {
          board := board + " ";
        } else {
          board := board + "#";
        }
        assert seq(j + 1, k => Square(i, k)) == seq(j, k => Square(i, k)) + [Square(i, j)];
      }
      board := board + "\n";
    }
  }

  /** main's drawing: the 8 x 8 board, 72 characters long. */
  method DrawMain() returns (board: string)
    ensures board == Rows(MainSize, MainSize)
    ensures |board| == 72
  {
    board := Draw(MainSize);
  }

  /** Row i of a drawing whose rows are w characters wide starts before row k does. */
  lemma RowStartsBefore(i: nat, k: nat, w: nat, j: nat)
    requires i < k && j < w
    ensures i * w + j < k * w
  {
    calc {
      i * w + j;
    <
      i * w + w;
    ==
      (i + 1) * w;
    <=  { MulMonotone(i + 1, k, w); }
      k * w;
    }
  }

  lemma MulMonotone(a: nat, b: nat, w: nat)
    requires a <= b
    ensures a * w <= b * w
  {
  }

  /**
   * The character at index i * (size + 1) + j is the square (i, j) for j < size
   * and the line break for j == size.
   */
  lemma {:induction false} RowsAt(k: nat, size: nat, i: nat, j: nat)
    requires i < k && j <= size
    ensures i * (size + 1) + j < |Rows(k, size)|
    ensures Rows(k, size)[i * (size + 1) + j] == if j == size then '\n' else Square(i, j)
  {
    var w := size + 1;
    RowStartsBefore(i, k, w, j);
    if i < k - 1 {
      RowsAt(k - 1, size, i, j);
      RowStartsBefore(i, k - 1, w, j);
    } else {
      assert i * w == |Rows(k - 1, size)|;
    }
  }

  lemma {:induction false} OccurrencesAppend(s: string, t: string, c: char)
    ensures Occurrences(s + t, c) == Occurrences(s, c) + Occurrences(t, c)
  {
    if s != [] {
      assert (s + t)[1..] == s[1..] + t;
      OccurrencesAppend(s[1..], t, c);
    } else {
      assert s + t == t;
    }
  }

  lemma {:induction false} OccurrencesAbsent(s: string, c: char)
    requires forall k :: 0 <= k < |s| ==> s[k] != c
    ensures Occurrences(s, c) == 0
  {
    if s != [] {
      OccurrencesAbsent(s[1..], c);
    }
  }

  /** A drawing of k rows holds exactly k line breaks, one closing each row. */
  lemma {:induction false} RowsLineBreaks(k: nat, size: nat)
    ensures Occurrences(Rows(k, size), '\n') == k
  {
    if k > 0 {
      RowsLineBreaks(k - 1, size);
      var squares := seq(size, j => Square(k - 1, j));
      OccurrencesAbsent(squares, '\n');
      OccurrencesAppend(squares, "\n", '\n');
      OccurrencesAppend(Rows(k - 1, size), Row(k - 1, size), '\n');
    }
  }

  /** Neighbouring squares in a row differ, and the top-left square is light. */
  lemma NeighboursDiffer(size: nat, i: nat, j: nat)
    requires i < size && j + 1 < size
    ensures i * (size + 1) + j + 1 < |Rows(size, size)|
    ensures Rows(size, size)[i * (size + 1) + j] != Rows(size, size)[i * (size + 1) + j + 1]
    ensures Rows(size, size)[0] == ' '
  {
    RowsAt(size, size, i, j);
    RowsAt(size, size, i, j + 1);
    RowsAt(size, size, 0, 0);
  }
}
