// Model of internal/model/game.go: one match between two players, a state
// machine over its status, an append-only move history, the player on turn
// and the winner.
module Games {
  import opened Players
  import opened Boards
  import opened Moves

  datatype GameStatus = NotStarted | InProgress | Finished

  /** The fields of a game that its methods change. */
  datatype GameState = GameState(status: GameStatus, moves: seq<Move>, currentPlayer: Player, winner: Player?)

  class Game {
    const whitePlayer: Player
    const blackPlayer: Player
    const board: Board
    var moves: seq<Move>
    var currentPlayer: Player
    var status: GameStatus
    var winner: Player?

    /** NewGame: two fresh players, a fresh empty board, white to move, not started, no winner. */
    constructor (whitePlayerName: string, blackPlayerName: string, boardSize: nat)
      ensures whitePlayer.name == whitePlayerName && whitePlayer.color == White && whitePlayer.WellFormed()
      ensures blackPlayer.name == blackPlayerName && blackPlayer.color == Black && blackPlayer.WellFormed()
      ensures fresh(whitePlayer) && fresh(blackPlayer) && whitePlayer != blackPlayer
      ensures fresh(board) && fresh(board.cells) && board.Valid() && board.size == boardSize
      ensures forall r, c :: 0 <= r < boardSize && 0 <= c < boardSize ==> board.cells[r][c] == ""
      ensures State() == GameState(NotStarted, [], whitePlayer, null)
      ensures Valid()
    {
      var white := new Player(whitePlayerName, White);
      var black := new Player(blackPlayerName, Black);
      var b := new Board(boardSize);
      whitePlayer := white;
      blackPlayer := black;
      board := b;
      moves := [];
      currentPlayer := white;
      status := NotStarted;
      winner := null;
    }

    /** The object invariant: two distinct players, and one of them is on turn. */
    ghost predicate Valid()
      reads this
    {
      whitePlayer != blackPlayer && Seated(this, currentPlayer)
    }

    ghost function State(): GameState
      reads this
    {
      GameState(status, moves, currentPlayer, winner)
    }

    /** The player SwitchPlayer hands the turn to: black after white, white after anyone else. */
    function Opponent(p: Player): Player
    {
      if p == whitePlayer then blackPlayer else whitePlayer
    }

    /** The three guards of MakeMove: the game is running, the mover is on turn, both endpoints are on the board. */
    predicate Accepts(s: GameState, move: Move)
    {
      s.status == InProgress && move.player == s.currentPlayer && move.IsValid(board)
    }

    /** What MakeMove leaves behind: an accepted move is appended and the turn passes; a rejected one changes nothing. */
    function AfterMove(s: GameState, move: Move): GameState
    {
      if Accepts(s, move) then
        s.(moves := s.moves + [move], currentPlayer := Opponent(s.currentPlayer))
      else
        s
    }

    /** What Start leaves behind, from any status. */
    function Started(s: GameState): GameState
    {
      s.(status := InProgress)
    }

    /** What Resign leaves behind: the player not on turn wins and the game is over. */
    function Resigned(s: GameState): GameState
    {
      s.(winner := Opponent(s.currentPlayer), status := Finished)
    }

    /** Start: the status becomes InProgress whatever it was, a finished game included. */
    method Start()
      requires Valid()
      modifies this`status
      ensures Valid()
      ensures State() == Started(old(State()))
    {
      status := InProgress;
    }

    predicate IsInProgress()
      reads this
    {
      status == InProgress
    }

    predicate IsFinished()
      reads this
    {
      status == Finished
    }

    /** MakeMove: reports whether the move was accepted and leaves the state AfterMove describes; the board is not touched. */
    method MakeMove(move: Move) returns (ok: bool)
      requires Valid()
      modifies this`moves, this`currentPlayer
      ensures Valid()
      ensures ok == Accepts(old(State()), move)
      ensures State() == AfterMove(old(State()), move)
    {
      if !IsInProgress() {
        return false;
      }
      if move.player != currentPlayer {
        return false;
      }
      if !move.IsValid(board) {
        return false;
      }
      moves := moves + [move];
      SwitchPlayer();
      ok := true;
    }

    /** SwitchPlayer: hands the turn to the opponent of the player on turn. */
    method SwitchPlayer()
      requires Valid()
      modifies this`currentPlayer
      ensures Valid()
      ensures currentPlayer == Opponent(old(currentPlayer))
    {
      if currentPlayer == whitePlayer {
        currentPlayer := blackPlayer;
      } else {
        currentPlayer := whitePlayer;
      }
    }

    /** Finish: the status becomes Finished. */
    method Finish()
      requires Valid()
      modifies this`status
      ensures Valid()
      ensures State() == old(State()).(status := Finished)
    {
      status := Finished;
    }

    /** GetMoveCount: the number of accepted moves so far. */
    function GetMoveCount(): (n: nat)
      reads this
      ensures n == |moves|
    {
      |moves|
    }

    /** Resign: leaves the state Resigned describes; the player on turn does not change. */
    method Resign()
      requires Valid()
      modifies this`winner, this`status
      ensures Valid()
      ensures State() == Resigned(old(State()))
    {
      if currentPlayer == whitePlayer {
        winner := blackPlayer;
      } else {
        winner := whitePlayer;
      }
      Finish();
    }
  }

  /** The two status tests hold exactly for their status, and never together. */
  lemma StatusTests(g: Game)
    ensures g.IsInProgress() <==> g.status == InProgress
    ensures g.IsFinished() <==> g.status == Finished
    ensures !(g.IsInProgress() && g.IsFinished())
  {
  }

  /** Start always yields InProgress, and starting twice is the same as starting once. */
  lemma StartIdempotent(g: Game, s: GameState)
    ensures g.Started(s).status == InProgress
    ensures g.Started(s).moves == s.moves && g.Started(s).currentPlayer == s.currentPlayer
    ensures g.Started(s).winner == s.winner
    ensures g.Started(g.Started(s)) == g.Started(s)
  {
  }

  /** Each guard of MakeMove on its own rejects the move and leaves every field as it was. */
  lemma MakeMoveRejects(g: Game, s: GameState, move: Move)
    ensures s.status != InProgress ==> !g.Accepts(s, move) && g.AfterMove(s, move) == s
    ensures move.player != s.currentPlayer ==> !g.Accepts(s, move) && g.AfterMove(s, move) == s
    ensures !move.IsValid(g.board) ==> !g.Accepts(s, move) && g.AfterMove(s, move) == s
  {
  }

  /**
   * The player on turn is one of the game's two players. Game.Valid() holds this of
   * currentPlayer, so the lemmas below apply to g.State() of any valid game.
   */
  ghost predicate Seated(g: Game, p: Player)
  {
    p == g.whitePlayer || p == g.blackPlayer
  }

  /** An accepted move grows the history by exactly that move and passes the turn to the other player. */
  lemma MakeMoveAccepts(g: Game, s: GameState, move: Move)
    requires g.whitePlayer != g.blackPlayer && Seated(g, s.currentPlayer)
    requires g.Accepts(s, move)
    ensures g.AfterMove(s, move).moves == s.moves + [move]
    ensures g.AfterMove(s, move).status == s.status && g.AfterMove(s, move).winner == s.winner
    ensures Seated(g, g.AfterMove(s, move).currentPlayer)
    ensures g.AfterMove(s, move).currentPlayer != s.currentPlayer
  {
  }

  /** Turn-taking: white is on turn exactly when an even number of moves has been made. */
  ghost predicate Alternating(g: Game, s: GameState)
  {
    Seated(g, s.currentPlayer) && (s.currentPlayer == g.whitePlayer <==> |s.moves| % 2 == 0)
  }

  /** The state after offering the moves ms to MakeMove one after another. */
  function Replay(g: Game, s: GameState, ms: seq<Move>): GameState
    decreases |ms|
  {
    if ms == [] then s else Replay(g, g.AfterMove(s, ms[0]), ms[1..])
  }

  /** The moves of ms that MakeMove accepts, in order. */
  function Accepted(g: Game, s: GameState, ms: seq<Move>): seq<Move>
    decreases |ms|
  {
    if ms == [] then []
    else (if g.Accepts(s, ms[0]) then [ms[0]] else []) + Accepted(g, g.AfterMove(s, ms[0]), ms[1..])
  }

  /** A run of MakeMove calls appends exactly the accepted moves, keeps the turn alternating and leaves status and winner alone. */
  lemma {:induction false} ReplayAlternates(g: Game, s: GameState, ms: seq<Move>)
    requires g.whitePlayer != g.blackPlayer
    requires Alternating(g, s)
    ensures Alternating(g, Replay(g, s, ms))
    ensures Replay(g, s, ms).moves == s.moves + Accepted(g, s, ms)
    ensures Replay(g, s, ms).status == s.status && Replay(g, s, ms).winner == s.winner
    decreases |ms|
  {
    if ms != [] {
      var s' := g.AfterMove(s, ms[0]);
      assert Alternating(g, s');
      ReplayAlternates(g, s', ms[1..]);
      assert s.moves + Accepted(g, s, ms) == s'.moves + Accepted(g, s', ms[1..]);
    }
  }

  /**
   * From a new game that has been started, after n accepted moves the move count is n
   * and white is on turn exactly when n is even.
   */
  lemma NewGameRun(g: Game, ms: seq<Move>)
    requires g.whitePlayer != g.blackPlayer
    ensures var s0 := g.Started(GameState(NotStarted, [], g.whitePlayer, null));
      var r := Replay(g, s0, ms);
      && r.moves == Accepted(g, s0, ms)
      && (r.currentPlayer == g.whitePlayer <==> |Accepted(g, s0, ms)| % 2 == 0)
      && r.status == InProgress && r.winner == null
  {
    var s0 := g.Started(GameState(NotStarted, [], g.whitePlayer, null));
    ReplayAlternates(g, s0, ms);
  }

  /**
   * Resign gives the win to the player not on turn, finishes the game, keeps the player
   * on turn, and so a second Resign changes nothing.
   */
  lemma ResignWinner(g: Game, s: GameState)
    requires g.whitePlayer != g.blackPlayer && Seated(g, s.currentPlayer)
    ensures var r := g.Resigned(s);
      && r.status == Finished && r.currentPlayer == s.currentPlayer && r.moves == s.moves
      && r.winner != null && Seated(g, r.winner) && r.winner != s.currentPlayer
      && g.Resigned(r) == r
  {
  }
}
