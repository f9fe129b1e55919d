// Model of internal/repository/repository.go: four insert-ordered
// collections of entities and a bounded change-event channel. The source
// keeps them in package-level variables; here they are the fields of one
// Registry object, and each operation is atomic.
module Repository {
  import opened Players
  import opened Boards
  import opened Moves
  import opened Games

  /** The entity kinds Store dispatches on. */
  datatype Entity =
    | BoardEntity(board: Board)
    | GameEntity(game: Game)
    | MoveEntity(move: Move)
    | PlayerEntity(player: Player)

  /** The free-text detail of an event; a removal names the game it removed. */
  datatype Details = Text(text: string) | RemovedGame(game: Game)

  /** A change event; the wall-clock timestamp is not modelled. */
  datatype SliceChange = SliceChange(sliceType: string, operation: string, details: Details)

  /** The buffer size of the change channel. */
  const ChannelCapacity: nat := 128

  /** A non-blocking send: the event is queued if there is room and dropped otherwise. */
  function Offered(queue: seq<SliceChange>, change: SliceChange): (q: seq<SliceChange>)
    ensures |queue| <= ChannelCapacity ==> |q| <= ChannelCapacity
    ensures |queue| < ChannelCapacity ==> q == queue + [change]
    ensures |queue| >= ChannelCapacity ==> q == queue
  {
    if |queue| < ChannelCapacity then queue + [change] else queue
  }

  /** The queue after a series of non-blocking sends. */
  function OfferedAll(queue: seq<SliceChange>, changes: seq<SliceChange>): seq<SliceChange>
    decreases |changes|
  {
    if changes == [] then queue else OfferedAll(Offered(queue, changes[0]), changes[1..])
  }

  /**
   * Any series of sends into a queue within capacity keeps it within capacity: the
   * events that fit are appended in order and the rest are dropped.
   */
  lemma {:induction false} OfferedAllKeepsFirst(queue: seq<SliceChange>, changes: seq<SliceChange>)
    requires |queue| <= ChannelCapacity
    ensures var room := ChannelCapacity - |queue|;
      OfferedAll(queue, changes) == queue + changes[..if |changes| < room then |changes| else room]
    ensures |OfferedAll(queue, changes)| <= ChannelCapacity
    decreases |changes|
  {
    if changes != [] {
      var room := ChannelCapacity - |queue|;
      var q' := Offered(queue, changes[0]);
      OfferedAllKeepsFirst(q', changes[1..]);
      if room == 0 {
        assert changes[..0] == [];
        assert q' == queue;
        // a full queue stays full: every later send is dropped too
        assert OfferedAll(q', changes[1..]) == queue + changes[1..][..0];
      } else {
        var k := if |changes| < room then |changes| else room;
        assert changes[1..][..k - 1] == changes[1..k];
        assert queue + changes[..k] == q' + changes[1..k];
      }
    }
  }

  /** The sequence with its first occurrence of x removed; unchanged when x does not occur. */
  function RemoveFirst<T(==)>(s: seq<T>, x: T): seq<T>
  {
    if s == [] then []
    else if s[0] == x then s[1..]
    else [s[0]] + RemoveFirst(s[1..], x)
  }

  /** When i is the first index holding x, removing the first x splices out index i. */
  lemma {:induction false} RemoveFirstAt<T>(s: seq<T>, x: T, i: nat)
    requires i < |s| && s[i] == x && x !in s[..i]
    ensures RemoveFirst(s, x) == s[..i] + s[i + 1..]
  {
    if i > 0 {
      assert s[1..][..i - 1] == s[1..i];
      RemoveFirstAt(s[1..], x, i - 1);
    }
  }

  /** Removing an absent element changes nothing. */
  lemma {:induction false} RemoveFirstAbsent<T>(s: seq<T>, x: T)
    requires x !in s
    ensures RemoveFirst(s, x) == s
  {
    if s != [] {
      RemoveFirstAbsent(s[1..], x);
    }
  }

  /**
   * Removing the first occurrence of a present element drops exactly one copy of it:
   * the length falls by one and every other element keeps its count.
   */
  lemma {:induction false} RemoveFirstOneCopy<T>(s: seq<T>, x: T)
    requires x in s
    ensures |RemoveFirst(s, x)| == |s| - 1
    ensures multiset(RemoveFirst(s, x)) == multiset(s) - multiset{x}
  {
    if s[0] != x {
      RemoveFirstOneCopy(s[1..], x);
      assert s == [s[0]] + s[1..];
    } else {
      assert s == [s[0]] + s[1..];
    }
  }

  /** The elements left behind keep their relative order: the result is what remains of s around one index. */
  lemma RemoveFirstKeepsOrder<T>(s: seq<T>, x: T)
    requires x in s
    ensures exists i :: 0 <= i < |s| && s[i] == x && RemoveFirst(s, x) == s[..i] + s[i + 1..]
  {
    var i :| 0 <= i < |s| && s[i] == x && x !in s[..i] by {
      FirstIndexExists(s, x);
    }
    RemoveFirstAt(s, x, i);
  }

  /** An element that occurs has a first index. */
  lemma {:induction false} FirstIndexExists<T>(s: seq<T>, x: T)
    requires x in s
    ensures exists i :: 0 <= i < |s| && s[i] == x && x !in s[..i]
  {
    if s[0] == x {
      assert s[..0] == [];
    } else {
      FirstIndexExists(s[1..], x);
      var j :| 0 <= j < |s[1..]| && s[1..][j] == x && x !in s[1..][..j];
      assert s[..j + 1] == [s[0]] + s[1..][..j];
    }
  }

  class Registry {
    var boards: seq<Board>
    var games: seq<Game>
    var moves: seq<Move>
    var players: seq<Player>
    /** The events buffered in the change channel, oldest first. */
    var changes: seq<SliceChange>

    ghost predicate Valid()
      reads this
    {
      |changes| <= ChannelCapacity
    }

    /** The package's initial state: empty collections and an empty channel. */
    constructor ()
      ensures Valid()
      ensures boards == [] && games == [] && moves == [] && players == [] && changes == []
    {
      boards, games, moves, players := [], [], [], [];
      changes := [];
    }

    /** Store: appends the entity to the collection of its kind; nothing else changes and no event is sent. */
    method Store(entity: Entity)
      modifies this
      ensures boards == if entity.BoardEntity? then old(boards) + [entity.board] else old(boards)
      ensures games == if entity.GameEntity? then old(games) + [entity.game] else old(games)
      ensures moves == if entity.MoveEntity? then old(moves) + [entity.move] else old(moves)
      ensures players == if entity.PlayerEntity? then old(players) + [entity.player] else old(players)
      ensures changes == old(changes)
    {
      match entity
      case BoardEntity(b) =>
        boards := boards + [b];
      case GameEntity(g) =>
        games := games + [g];
      case MoveEntity(m) =>
        moves := moves + [m];
      case PlayerEntity(p) =>
        players := players + [p];
    }

    /**
     * RemoveGame: removes the first entry that is the same game object and reports the
     * removal on the channel; an absent game changes nothing.
     */
    method RemoveGame(game: Game)
      requires Valid()
      modifies this
      ensures Valid()
      ensures games == RemoveFirst(old(games), game)
      ensures changes == if game in old(games)
        then Offered(old(changes), SliceChange("games", "remove", RemovedGame(game)))
        else old(changes)
      ensures boards == old(boards) && moves == old(moves) && players == old(players)
    {
      var i := 0;
      while i < |games|
        invariant 0 <= i <= |games|
        invariant games == old(games) && changes == old(changes)
        invariant game !in games[..i]
        invariant boards == old(boards) && moves == old(moves) && players == old(players)
      {
        if games[i] == game {
          RemoveFirstAt(games, game, i);
          games := games[..i] + games[i + 1..];
          NotifySliceChange("games", "remove", RemovedGame(game));
          return;
        }
        i := i + 1;
      }
      assert games[..i] == games;
      RemoveFirstAbsent(games, game);
    }

    /** GetBoards: a fresh array holding the current boards. */
    method GetBoards() returns (copied: array<Board>)
      ensures fresh(copied) && copied[..] == boards
    {
      var current := boards;
      copied := new Board[|current|](i requires 0 <= i < |current| => current[i]);
    }

    /** GetGames: a fresh array holding the current games. */
    method GetGames() returns (copied: array<Game>)
      ensures fresh(copied) && copied[..] == games
    {
      var current := games;
      copied := new Game[|current|](i requires 0 <= i < |current| => current[i]);
    }

    /** GetMoves: a fresh array holding the current moves. */
    method GetMoves() returns (copied: array<Move>)
      ensures fresh(copied) && copied[..] == moves
    {
      var current := moves;
      copied := new Move[|current|](i requires 0 <= i < |current| => current[i]);
    }

    /** GetPlayers: a fresh array holding the current players. */
    method GetPlayers() returns (copied: array<Player>)
      ensures fresh(copied) && copied[..] == players
    {
      var current := players;
      copied := new Player[|current|](i requires 0 <= i < |current| => current[i]);
    }

    /** notifySliceChange: a non-blocking send of one event on the change channel. */
    method NotifySliceChange(sliceType: string, operation: string, details: Details)
      requires Valid()
      modifies this`changes
      ensures Valid()
      ensures changes == Offered(old(changes), SliceChange(sliceType, operation, details))
    {
      if |changes| < ChannelCapacity {
        changes := changes + [SliceChange(sliceType, operation, details)];
      }
    }

    /** LogSliceChange: the exported entry point to the same non-blocking send. */
    method LogSliceChange(sliceType: string, operation: string, details: string)
      requires Valid()
      modifies this`changes
      ensures Valid()
      ensures changes == Offered(old(changes), SliceChange(sliceType, operation, Text(details)))
    {
      NotifySliceChange(sliceType, operation, Text(details));
    }
  }

  /**
   * An illustration of copy semantics on one script: GetGames, then Store, then RemoveGame.
   * The general fact is that every getter returns a fresh array while every mutator
   * modifies only the registry object, so no later call can change a copy.
   */
  method SnapshotIsolation(r: Registry, entity: Entity, game: Game) returns (snapshot: array<Game>)
    requires r.Valid()
    modifies r
    ensures r.Valid()
    ensures snapshot[..] == old(r.games)
  {
    snapshot := r.GetGames();
    r.Store(entity);
    r.RemoveGame(game);
  }
}
