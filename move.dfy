// Model of internal/model/move.go: a move is an immutable record of two
// board coordinates, the acting player and the piece, with a short
// algebraic-style notation.
module Moves {
  import opened Players
  import opened Boards

  datatype Option<T> = None | Some(value: T)

  datatype Position = Position(row: int, col: int)

  /** The file letters the notation uses, indexed by column. */
  const Columns: string := "abcdefgh"

  /** The digits the notation shows for rows 0 to 7. */
  const Ranks: string := "12345678"

  /** Go's int-to-rune conversion keeps the low 32 bits, read as a signed integer. */
  function Int32(x: int): (v: int)
    ensures -0x8000_0000 <= v < 0x8000_0000
    ensures (v - x) % 0x1_0000_0000 == 0
  {
    (x + 0x8000_0000) % 0x1_0000_0000 - 0x8000_0000
  }

  /** A Unicode scalar value: a code point that is not a surrogate. */
  predicate IsScalarValue(v: int)
  {
    0 <= v < 0xD800 || 0xE000 <= v < 0x11_0000
  }

  /**
   * The character that string(rune(x)) yields: the code point itself when it is a
   * Unicode scalar value, the replacement character U+FFFD otherwise (a negative
   * value, a surrogate, or a value above U+10FFFF after truncation to 32 bits).
   */
  function RuneChar(x: int): (c: char)
    ensures IsScalarValue(Int32(x)) ==> c as int == Int32(x)
    ensures !IsScalarValue(Int32(x)) ==> c == '\U{FFFD}'
  {
    var v := Int32(x);
    if 0 <= v < 0xD800 || 0xE000 <= v < 0x11_0000 then v as char else '\U{FFFD}'
  }

  /** Only the low 32 bits of the value matter: values 2^32 apart give the same character. */
  lemma RuneCharPeriodic(x: int)
    ensures RuneChar(x + 0x1_0000_0000) == RuneChar(x)
  {
    assert Int32(x + 0x1_0000_0000) == Int32(x);
  }

  datatype Move = Move(from: Position, to: Position, player: Player, piece: string)
  {
    /** IsValid: both endpoints lie on the board; cells and player play no part. */
    predicate IsValid(board: Board)
    {
      board.IsValidPosition(from.row, from.col) && board.IsValidPosition(to.row, to.col)
    }

    /** Both endpoints lie on an 8 x 8 board, where the notation is readable. */
    predicate OnChessboard()
    {
      0 <= from.row < 8 && 0 <= from.col < 8 && 0 <= to.row < 8 && 0 <= to.col < 8
    }

    /**
     * GetNotation: file letter and rank of each endpoint joined by '-', or "" when
     * either column is past 'h'. A negative column that gets indexed makes the
     * source panic, hence the precondition.
     */
    function Notation(): (s: string)
      requires from.col < |Columns| && to.col < |Columns| ==> 0 <= from.col && 0 <= to.col
      ensures from.col >= |Columns| || to.col >= |Columns| ==> s == ""
      ensures from.col < |Columns| && to.col < |Columns| ==>
        && |s| == 5 && s[2] == '-'
        && s[0] == Columns[from.col] && s[3] == Columns[to.col]
        && s[1] == RuneChar('1' as int + from.row) && s[4] == RuneChar('1' as int + to.row)
    {
      if from.col < |Columns| && to.col < |Columns| then
        [Columns[from.col]] + [RuneChar('1' as int + from.row)] +
        "-" +
        [Columns[to.col]] + [RuneChar('1' as int + to.row)]
      else
        ""
    }
  }

  /** NewMove: stores the coordinates, the player and the piece as given. */
  function NewMove(fromRow: int, fromCol: int, toRow: int, toCol: int, player: Player, piece: string): (m: Move)
    ensures m.from.row == fromRow && m.from.col == fromCol
    ensures m.to.row == toRow && m.to.col == toCol
    ensures m.player == player && m.piece == piece
  {
    Move(Position(fromRow, fromCol), Position(toRow, toCol), player, piece)
  }

  /** Rows 0 to 7 are written as the digits '1' to '8'. */
  lemma RankDigit(row: int)
    requires 0 <= row < 8
    ensures RuneChar('1' as int + row) == Ranks[row]
  {
  }

  /** Reads one square back from its file letter and rank digit. */
  function ParseSquare(file: char, rank: char): (p: Option<Position>)
    ensures p.Some? ==> 0 <= p.value.row < 8 && 0 <= p.value.col < 8
  {
    if 'a' <= file <= 'h' && '1' <= rank <= '8' then
      Some(Position(rank as int - '1' as int, file as int - 'a' as int))
    else
      None
  }

  /** Reads a notation of the form "e2-e4" back into its two squares. */
  function ParseNotation(s: string): Option<(Position, Position)>
  {
    if |s| == 5 && s[2] == '-' then
      match (ParseSquare(s[0], s[1]), ParseSquare(s[3], s[4]))
      case (Some(f), Some(t)) => Some((f, t))
      case _ => None
    else
      None
  }

  /** A move on the 8 x 8 board reads back to its own endpoints. */
  lemma NotationRoundTrip(m: Move)
    requires m.OnChessboard()
    ensures ParseNotation(m.Notation()) == Some((m.from, m.to))
  {
  }

  /** Every string that reads back is the notation of any move between those squares. */
  lemma NotationComplete(s: string, f: Position, t: Position, player: Player, piece: string)
    requires ParseNotation(s) == Some((f, t))
    ensures Move(f, t, player, piece).OnChessboard()
    ensures Move(f, t, player, piece).Notation() == s
  {
  }

  /** Validity depends on the board's size and the endpoints alone, not on cells, player or piece. */
  lemma ValidityDependsOnSize(m: Move, b: Board, b': Board, player: Player, piece: string)
    requires b.size == b'.size
    ensures m.IsValid(b) <==> m.(player := player, piece := piece).IsValid(b')
  {
  }
}
