// Model of internal/model/player.go: a player is an immutable identity that
// games, moves and the registry share by reference.
module Players {

  /** A player's colour. The source keeps it as a free-form string with two named values. */
  type PlayerColor = string

  const White: PlayerColor := "white"
  const Black: PlayerColor := "black"

  /** The king symbol a new player gets: the black king for Black, the white king otherwise. */
  function SymbolFor(color: PlayerColor): string
  {
    if color == Black then "♚" else "♔"
  }

  /** The colour word shown in a display name ("black" / "white" in Russian). */
  function ColorName(color: PlayerColor): string
  {
    if color == Black then "черные" else "белые"
  }

  /** Everything a display name adds after the player's name. */
  function DisplaySuffix(color: PlayerColor): string
  {
    " (" + ColorName(color) + " " + SymbolFor(color) + ")"
  }

  class Player {
    const name: string
    const color: PlayerColor
    const symbol: string

    /** NewPlayer: keeps name and colour, and picks the symbol from the colour. */
    constructor (name: string, color: PlayerColor)
      ensures this.name == name && this.color == color
      ensures symbol == (if color == Black then "♚" else "♔")
      ensures WellFormed()
    {
      this.name := name;
      this.color := color;
      symbol := SymbolFor(color);
    }

    /** Holds of every player the constructor builds. */
    predicate WellFormed()
    {
      symbol == SymbolFor(color)
    }

    predicate IsWhite()
    {
      color == White
    }

    predicate IsBlack()
    {
      color == Black
    }

    /** GetDisplayName: the name, then the colour word and the symbol in parentheses. */
    function DisplayName(): (d: string)
      ensures |d| > |name| + 4
      ensures d[..|name|] == name && d[|d| - 1] == ')'
    {
      name + " (" + ColorName(color) + " " + symbol + ")"
    }
  }

  /** A player is never both white and black, and each test holds exactly for its colour. */
  lemma ColorTestsExclusive(p: Player)
    ensures p.IsWhite() <==> p.color == White
    ensures p.IsBlack() <==> p.color == Black
    ensures !(p.IsWhite() && p.IsBlack())
  {
  }

  /** For a player built by the constructor, the display name is the name followed by the suffix of its colour. */
  lemma DisplayNameShape(p: Player)
    requires p.WellFormed()
    ensures p.DisplayName() == p.name + DisplaySuffix(p.color)
    ensures |DisplaySuffix(p.color)| == if p.color == Black then 11 else 10
  {
  }

  /**
   * The display name of a well-formed player determines its name and whether it is black:
   * the two suffixes differ in their last symbol.
   */
  lemma {:induction false} DisplayNameDetermines(p: Player, q: Player)
    requires p.WellFormed() && q.WellFormed()
    requires p.DisplayName() == q.DisplayName()
    ensures p.name == q.name
    ensures p.IsBlack() <==> q.IsBlack()
  {
    var d := p.DisplayName();
    DisplayNameShape(p);
    DisplayNameShape(q);
    var sp, sq := DisplaySuffix(p.color), DisplaySuffix(q.color);
    // the symbol sits just before the closing parenthesis
    assert d[|d| - 2] == sp[|sp| - 2] by { assert d == p.name + sp; }
    assert d[|d| - 2] == sq[|sq| - 2] by { assert d == q.name + sq; }
    assert (p.color == Black) == (q.color == Black);
    assert sp == sq;
    assert p.name == d[..|d| - |sp|] by { assert d == p.name + sp; }
    assert q.name == d[..|d| - |sq|] by { assert d == q.name + sq; }
  }
}
