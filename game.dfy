/**
 * The game controller (lib.rs, `TicTacToe`): the two player identities,
 * the nine cells and the stored status code, with the join and turn
 * operations that move the game through its phases.
 */
module Game {
  import opened Types
  import opened Errors
  import opened Board
  import opened Status

  const Length: nat := 3
  const Size: nat := Length * Length

  /** The contract's storage as one value. */
  datatype State = State(playerX: AccountId, playerO: Option<AccountId>, cells: seq<Cell>, status: u8)

  function Opponent(p: Player): Player {
    match p
    case XPlayer => OPlayer
    case OPlayer => XPlayer
  }

  // ---------------------------------------------------------------------------
  // Lines and the win/draw check

  /** All three cells of a line hold `p`'s mark. */
  predicate LineOwned(cells: seq<Cell>, line: (nat, nat, nat), p: Player)
    requires line.0 < |cells| && line.1 < |cells| && line.2 < |cells|
  {
    Owns(cells[line.0], p) && Owns(cells[line.1], p) && Owns(cells[line.2], p)
  }

  /** The eight lines of the grid: three rows, three columns, two diagonals. */
  const Lines: seq<(nat, nat, nat)> :=
    [(0, 1, 2), (3, 4, 5), (6, 7, 8), (0, 3, 6), (1, 4, 7), (2, 5, 8), (0, 4, 8), (2, 4, 6)]

  /** Reference definition of a win: some line of the grid is entirely `p`'s. */
  predicate Wins(cells: seq<Cell>, p: Player)
    requires |cells| == Size
  {
    exists k :: 0 <= k < |Lines| && LineOwned(cells, Lines[k], p)
  }

  /**
   * `TicTacToe::check_state`: after `p` moved at `coordinate`, tests the row
   * and the column through `coordinate` and both diagonals in full; a
   * complete line wins, otherwise a full board is a draw.
   */
  function CheckState(cells: seq<Cell>, p: Player, coordinate: nat): Option<GameStatus>
    requires |cells| == Size && coordinate < Size
  {
    var y := coordinate / Length;
    var x := coordinate % Length;
    var vert := LineOwned(cells, (y * Length, y * Length + 1, y * Length + 2), p);
    var horizontal := LineOwned(cells, (x, Length + x, 2 * Length + x), p);
    var mainDiagonal := LineOwned(cells, (0, Length + 1, 2 * Length + 2), p);
    var secondaryDiagonal := LineOwned(cells, (2 * Length, Length + 1, 2), p);
    var allFilled := forall i :: 0 <= i < |cells| ==> cells[i].Some?;
    if vert || horizontal || mainDiagonal || secondaryDiagonal then Some(PlayerWin(p))
    else if allFilled then Some(Draw)
    else None
  }

  /** What `check_state` reports is true of the board: a win is a complete line of the mover, a draw a full board. */
  lemma CheckStateSound(cells: seq<Cell>, p: Player, coordinate: nat)
    requires |cells| == Size && coordinate < Size
    ensures var r := CheckState(cells, p, coordinate);
      && (r.Some? ==> r.value == PlayerWin(p) || r.value == Draw)
      && (r == Some(PlayerWin(p)) ==> Wins(cells, p))
      && (r == Some(Draw) <==> r != Some(PlayerWin(p)) && Filled(cells) == Size)
      && (r.None? ==> Filled(cells) < Size)
  {
    FilledAll(cells);
    var y := coordinate / Length;
    var x := coordinate % Length;
    if CheckState(cells, p, coordinate) == Some(PlayerWin(p)) {
      if LineOwned(cells, (y * Length, y * Length + 1, y * Length + 2), p) {
        assert LineOwned(cells, Lines[y], p);
      } else if LineOwned(cells, (x, Length + x, 2 * Length + x), p) {
        assert LineOwned(cells, Lines[3 + x], p);
      } else if LineOwned(cells, (0, Length + 1, 2 * Length + 2), p) {
        assert LineOwned(cells, Lines[6], p);
      } else {
        assert LineOwned(cells, Lines[7], p);
      }
    }
  }

  /** A mark placed by `p` completes no line of the other player. */
  lemma PlacingCannotWinForOpponent(before: seq<Cell>, p: Player, coordinate: nat)
    requires |before| == Size && Place(before, p, coordinate).0.Ok?
    requires !Wins(before, Opponent(p))
    ensures !Wins(Place(before, p, coordinate).1, Opponent(p))
  {
    var after := Place(before, p, coordinate).1;
    forall k | 0 <= k < |Lines| ensures !LineOwned(after, Lines[k], Opponent(p)) {
      assert !LineOwned(before, Lines[k], Opponent(p));
    }
  }

  /**
   * The local check is complete: when the board had no line of `p` before
   * `p`'s move, `check_state` reports a win exactly when the move completed
   * some line of the grid. A new line must pass through the new mark, and
   * the lines through a cell are its row, its column and the diagonals.
   */
  lemma CheckStateComplete(before: seq<Cell>, p: Player, coordinate: nat)
    requires |before| == Size && Place(before, p, coordinate).0.Ok?
    requires !Wins(before, p)
    ensures coordinate < Size
    ensures var after := Place(before, p, coordinate).1;
      CheckState(after, p, coordinate) == Some(PlayerWin(p)) <==> Wins(after, p)
  {
    var after := Place(before, p, coordinate).1;
    CheckStateSound(after, p, coordinate);
    if Wins(after, p) {
      var k :| 0 <= k < |Lines| && LineOwned(after, Lines[k], p);
      var line := Lines[k];
      assert coordinate == line.0 || coordinate == line.1 || coordinate == line.2 by {
        if !(coordinate == line.0 || coordinate == line.1 || coordinate == line.2) {
          assert LineOwned(before, Lines[k], p);
        }
      }
    }
  }

  /** The six scenarios of the unit test of lib.rs. */
  lemma CheckStateScenarios()
    ensures CheckState([Some(1), Some(1), Some(1), None, None, None, None, None, None], OPlayer, 2)
         == Some(PlayerWin(OPlayer))
    ensures CheckState([Some(0), Some(0), Some(0), None, None, None, None, None, None], XPlayer, 2)
         == Some(PlayerWin(XPlayer))
    ensures CheckState([None, Some(0), None, None, Some(0), None, None, Some(0), None], XPlayer, 1)
         == Some(PlayerWin(XPlayer))
    ensures CheckState([None, None, Some(0), None, Some(0), None, Some(0), None, None], XPlayer, 2)
         == Some(PlayerWin(XPlayer))
    ensures CheckState([Some(0), None, None, None, Some(0), None, None, None, Some(0)], XPlayer, 0)
         == Some(PlayerWin(XPlayer))
    ensures CheckState([Some(0), Some(1), Some(0), Some(0), Some(1), Some(0), Some(1), Some(0), Some(1)], XPlayer, 0)
         == Some(Draw)
  {
  }

  // ---------------------------------------------------------------------------
  // The operations on the stored state

  /** The state both constructors build: an empty board, not started, with an optional pre-declared opponent. */
  function NewGame(caller: AccountId, opponent: Option<AccountId>): (g: State)
    ensures |g.cells| == Size && Filled(g.cells) == 0
    ensures StatusFromByte(g.status) == NotStarted
  {
    State(caller, opponent, Default(Size), StatusToByte(NotStarted))
  }

  /** `join_game`: the guards in source order, then the binding of the second player. */
  function JoinOutcome(g: State, caller: AccountId): (out: (Result<()>, State))
    ensures out.1.cells == g.cells && out.1.playerX == g.playerX
    ensures out.0.Err? ==> out.1 == g
  {
    var status := StatusFromByte(g.status);
    if !status.NotStarted? then (Err(GameAlreadyStarted), g)
    else if caller == g.playerX then (Err(ForGameNeedsAtLeast2Players), g)
    else if status.NotStarted? && g.playerO.Some? && g.playerO.value != caller then
      (Err(WaitingAnotherDefinedPlayer), g)
    else (Ok(()), g.(playerO := Some(caller), status := StatusToByte(PlayerTurning(XPlayer))))
  }

  /** The role of `caller` in `turn`: no second player yet fails first; the second player is matched before the first. */
  function ResolveRole(playerX: AccountId, playerO: Option<AccountId>, caller: AccountId): Result<Player> {
    if playerO.None? then Err(GameNotStarted)
    else if caller == playerO.value then Ok(OPlayer)
    else if caller == playerX then Ok(XPlayer)
    else Err(UnknownPlayer)
  }

  /** `switch_player`: the turn passes to the other player. */
  function SwitchedStatus(gs: GameStatus): GameStatus
    requires gs.PlayerTurning?
  {
    PlayerTurning(Opponent(gs.player))
  }

  /** `turn`: role, then status, then the board, then the win/draw check or the switch of turns. */
  function TurnOutcome(g: State, caller: AccountId, coordinate: u8): (out: (Result<()>, State))
    requires |g.cells| == Size
    ensures |out.1.cells| == Size && out.1.playerX == g.playerX && out.1.playerO == g.playerO
    ensures out.0.Err? ==> out.1 == g
  {
    match ResolveRole(g.playerX, g.playerO, caller)
    case Err(e) => (Err(e), g)
    case Ok(player) =>
      match StatusFromByte(g.status)
      case NotStarted => (Err(GameNotStarted), g)
      case PlayerWin(_) => (Err(GameAlreadyOver), g)
      case Draw => (Err(GameAlreadyOver), g)
      case PlayerTurning(turning) =>
        if turning != player then (Err(AnotherPlayerShouldTurn), g)
        else
          var (r, cells) := Place(g.cells, player, coordinate as nat);
          if r.Err? then (r, g)
          else
            match CheckState(cells, player, coordinate as nat)
            case None => (Ok(()), g.(cells := cells, status := StatusToByte(SwitchedStatus(PlayerTurning(turning)))))
            case Some(gs) => (Ok(()), g.(cells := cells, status := StatusToByte(gs)))
  }

  /** `caller` is the one identity whose `turn` passes the role and status checks. */
  predicate MayMove(g: State, caller: AccountId) {
    var status := StatusFromByte(g.status);
    status.PlayerTurning? && ResolveRole(g.playerX, g.playerO, caller) == Ok(status.player)
  }

  // ---------------------------------------------------------------------------
  // The game invariant

  /** Every cell is empty or holds the code of a mark. */
  predicate MarkCodes(cells: seq<Cell>) {
    forall i :: 0 <= i < |cells| ==> cells[i].None? || cells[i].value <= 1
  }

  /**
   * What holds of every reachable state: a nine-cell board of mark codes,
   * a status code; before the start an empty board; once started two
   * distinct players; while a player is to move nobody has a line, a cell
   * is free and the marks alternate (X has moved as often as O, or once
   * more); a win is a line of the winner only; a draw is a full board
   * without any line.
   */
  predicate Consistent(g: State) {
    && |g.cells| == Size
    && g.status <= 5
    && MarkCodes(g.cells)
    && (StatusFromByte(g.status) != NotStarted ==> g.playerO.Some? && g.playerO.value != g.playerX)
    && match StatusFromByte(g.status)
       case NotStarted => Filled(g.cells) == 0
       case PlayerTurning(p) =>
         && !Wins(g.cells, XPlayer) && !Wins(g.cells, OPlayer)
         && Filled(g.cells) < Size
         && Owned(g.cells, XPlayer) == Owned(g.cells, OPlayer) + (if p == XPlayer then 0 else 1)
       case PlayerWin(p) =>
         && Wins(g.cells, p) && !Wins(g.cells, Opponent(p))
         && Owned(g.cells, XPlayer) == Owned(g.cells, OPlayer) + (if p == XPlayer then 1 else 0)
       case Draw =>
         && Filled(g.cells) == Size
         && !Wins(g.cells, XPlayer) && !Wins(g.cells, OPlayer)
  }

  /** Both constructors start from a consistent state. */
  lemma NewGameConsistent(caller: AccountId, opponent: Option<AccountId>)
    ensures Consistent(NewGame(caller, opponent))
  {
  }

  /** An empty board holds no line of anybody. */
  lemma EmptyBoardNoWin(cells: seq<Cell>, p: Player)
    requires |cells| == Size && Filled(cells) == 0
    ensures !Wins(cells, p)
    ensures Owned(cells, p) == 0
  {
    FilledNone(cells);
    FilledSplit(cells);
  }

  /** `join_game` keeps the invariant. */
  lemma JoinPreservesConsistent(g: State, caller: AccountId)
    requires Consistent(g)
    ensures Consistent(JoinOutcome(g, caller).1)
  {
    if JoinOutcome(g, caller).0.Ok? {
      EmptyBoardNoWin(g.cells, XPlayer);
      EmptyBoardNoWin(g.cells, OPlayer);
    }
  }

  /** `turn` keeps the invariant. */
  lemma TurnPreservesConsistent(g: State, caller: AccountId, coordinate: u8)
    requires Consistent(g)
    ensures Consistent(TurnOutcome(g, caller, coordinate).1)
  {
    var (r, g') := TurnOutcome(g, caller, coordinate);
    if r.Ok? {
      var player := ResolveRole(g.playerX, g.playerO, caller).value;
      var c := coordinate as nat;
      var after := Place(g.cells, player, c).1;
      assert g'.cells == after;
      PlaceFillsOne(g.cells, player, c);
      PlacingCannotWinForOpponent(g.cells, player, c);
      CheckStateComplete(g.cells, player, c);
      CheckStateSound(after, player, c);
      assert Opponent(Opponent(player)) == player;
    }
  }

  // ---------------------------------------------------------------------------
  // Properties of join and turn

  /** The guards of `join_game` in their order; every failure leaves the state as it was. */
  lemma JoinGuards(g: State, caller: AccountId)
    ensures var (r, g') := JoinOutcome(g, caller);
      && (r.Err? ==> g' == g)
      && (!StatusFromByte(g.status).NotStarted? ==> r == Err(GameAlreadyStarted))
      && (StatusFromByte(g.status).NotStarted? && caller == g.playerX ==> r == Err(ForGameNeedsAtLeast2Players))
      && ((StatusFromByte(g.status).NotStarted? && caller != g.playerX && g.playerO.Some? && g.playerO.value != caller)
            ==> r == Err(WaitingAnotherDefinedPlayer))
      && (r.Ok? <==> StatusFromByte(g.status).NotStarted? && caller != g.playerX
                     && (g.playerO.None? || g.playerO.value == caller))
  {
  }

  /** A successful join binds the caller as second player, gives X the first move and leaves the board alone. */
  lemma JoinSuccess(g: State, caller: AccountId)
    requires JoinOutcome(g, caller).0.Ok?
    ensures var g' := JoinOutcome(g, caller).1;
      && g'.playerO == Some(caller) && g'.playerX == g.playerX
      && g'.status == 1 && StatusFromByte(g'.status) == PlayerTurning(XPlayer)
      && g'.cells == g.cells
  {
  }

  /** The role and status checks of `turn`, in their order; none of these failures changes the state. */
  lemma TurnGuards(g: State, caller: AccountId, coordinate: u8)
    requires |g.cells| == Size
    ensures var (r, g') := TurnOutcome(g, caller, coordinate);
      var status := StatusFromByte(g.status);
      && (r.Err? ==> g' == g)
      && (g.playerO.None? ==> r == Err(GameNotStarted))
      && (g.playerO.Some? && caller != g.playerO.value && caller != g.playerX ==> r == Err(UnknownPlayer))
      && (ResolveRole(g.playerX, g.playerO, caller).Ok? && status.NotStarted? ==> r == Err(GameNotStarted))
      && (ResolveRole(g.playerX, g.playerO, caller).Ok? && status.IsTerminal() ==> r == Err(GameAlreadyOver))
      && ((ResolveRole(g.playerX, g.playerO, caller).Ok? && status.PlayerTurning?
            && status.player != ResolveRole(g.playerX, g.playerO, caller).value) ==> r == Err(AnotherPlayerShouldTurn))
  {
  }

  /** Only the identity whose turn it is gets to the board; everyone else fails without a change. */
  lemma OnlyTurningPlayerMoves(g: State, caller: AccountId, coordinate: u8)
    requires |g.cells| == Size
    ensures var (r, g') := TurnOutcome(g, caller, coordinate);
      && (!MayMove(g, caller) ==> r.Err? && g' == g)
      && (MayMove(g, caller) ==> (r, g'.cells) == Place(g.cells, StatusFromByte(g.status).player, coordinate as nat))
  {
  }

  /** A board error of the mover is passed through unchanged, and neither board nor status moves. */
  lemma TurnBoardError(g: State, caller: AccountId, coordinate: u8)
    requires |g.cells| == Size && MayMove(g, caller)
    ensures var (r, g') := TurnOutcome(g, caller, coordinate);
      && (coordinate as nat >= Size ==> r == Err(CoordinateNotExists) && g' == g)
      && (coordinate as nat < Size && g.cells[coordinate].Some? ==> r == Err(CoordinateAlreadyFilled) && g' == g)
  {
  }

  /**
   * After a successful move by the player `p` to move, the status is `p`'s
   * win or a draw when the check says so, and otherwise the other player's
   * turn: turns alternate strictly.
   */
  lemma TurnSuccess(g: State, caller: AccountId, coordinate: u8)
    requires |g.cells| == Size
    requires TurnOutcome(g, caller, coordinate).0.Ok?
    ensures MayMove(g, caller)
    ensures var p := StatusFromByte(g.status).player;
      var g' := TurnOutcome(g, caller, coordinate).1;
      var after := Place(g.cells, p, coordinate as nat).1;
      && coordinate as nat < Size
      && g'.cells == after && g'.playerX == g.playerX && g'.playerO == g.playerO
      && StatusFromByte(g'.status) == (match CheckState(after, p, coordinate as nat)
                                       case Some(gs) => gs
                                       case None => PlayerTurning(Opponent(p)))
      && StatusFromByte(g'.status) != PlayerTurning(p)
  {
  }

  /** Won and drawn games are over: no turn and no join succeeds, and nothing changes. */
  lemma TerminalIsAbsorbing(g: State, caller: AccountId, coordinate: u8)
    requires |g.cells| == Size && StatusFromByte(g.status).IsTerminal()
    ensures TurnOutcome(g, caller, coordinate).0.Err? && TurnOutcome(g, caller, coordinate).1 == g
    ensures JoinOutcome(g, caller) == (Err(GameAlreadyStarted), g)
  {
  }

  /** In a consistent game, a move by the player to move lands exactly when its cell is free, and a free cell exists. */
  lemma TurningPlayerCanMove(g: State, caller: AccountId)
    requires Consistent(g) && MayMove(g, caller)
    ensures forall c: u8 :: TurnOutcome(g, caller, c).0.Ok? <==> c as nat < Size && g.cells[c].None?
    ensures exists c: u8 :: c as nat < Size && TurnOutcome(g, caller, c).0.Ok?
  {
    FilledAll(g.cells);
    var i :| 0 <= i < Size && g.cells[i].None?;
    assert TurnOutcome(g, caller, i as u8).0.Ok?;
  }

  /** A draw is a full board on which no line belongs to anyone; a win is a line of the winner alone. */
  lemma OutcomesAreCorrect(g: State)
    requires Consistent(g)
    ensures StatusFromByte(g.status) == Draw ==>
      (forall i :: 0 <= i < Size ==> g.cells[i].Some?) && !Wins(g.cells, XPlayer) && !Wins(g.cells, OPlayer)
    ensures StatusFromByte(g.status).PlayerWin? ==>
      Wins(g.cells, StatusFromByte(g.status).winner) && !Wins(g.cells, Opponent(StatusFromByte(g.status).winner))
  {
    FilledAll(g.cells);
  }

  /** The join scenario: the first joiner starts the game, a second different joiner is refused. */
  lemma JoinTwiceScenario(x: AccountId, a: AccountId, b: AccountId)
    requires x != a && x != b && a != b
    ensures var (r1, g1) := JoinOutcome(NewGame(x, None), a);
      && r1 == Ok(())
      && JoinOutcome(g1, b) == (Err(GameAlreadyStarted), g1)
      && JoinOutcome(NewGame(x, None), x).0 == Err(ForGameNeedsAtLeast2Players)
  {
  }

  // ---------------------------------------------------------------------------
  // Sequences of calls

  /** One call to the contract. */
  datatype Call = Join(caller: AccountId) | Move(caller: AccountId, coordinate: u8)

  /** The state after a sequence of calls, each applied to the state the last one left. */
  function Run(g: State, calls: seq<Call>): State
    requires |g.cells| == Size
    decreases |calls|
  {
    if calls == [] then g
    else
      var g' := match calls[0]
        case Join(caller) => JoinOutcome(g, caller).1
        case Move(caller, coordinate) => TurnOutcome(g, caller, coordinate).1;
      Run(g', calls[1..])
  }

  /** Any sequence of calls on a consistent state leaves it consistent. */
  lemma {:induction false} RunPreservesConsistent(g: State, calls: seq<Call>)
    requires Consistent(g)
    ensures Consistent(Run(g, calls))
    decreases |calls|
  {
    if calls != [] {
      match calls[0]
      case Join(caller) =>
        JoinPreservesConsistent(g, caller);
        RunPreservesConsistent(JoinOutcome(g, caller).1, calls[1..]);
      case Move(caller, coordinate) =>
        TurnPreservesConsistent(g, caller, coordinate);
        RunPreservesConsistent(TurnOutcome(g, caller, coordinate).1, calls[1..]);
    }
  }

  /** Over any sequence of calls, occupied cells keep their marks and the first player never changes. */
  lemma {:induction false} RunNeverOverwrites(g: State, calls: seq<Call>, i: nat)
    requires Consistent(g) && i < Size && g.cells[i].Some?
    ensures |Run(g, calls).cells| == Size
    ensures Run(g, calls).cells[i] == g.cells[i]
    ensures Run(g, calls).playerX == g.playerX
    decreases |calls|
  {
    RunPreservesConsistent(g, calls);
    if calls != [] {
      match calls[0]
      case Join(caller) =>
        JoinPreservesConsistent(g, caller);
        RunNeverOverwrites(JoinOutcome(g, caller).1, calls[1..], i);
      case Move(caller, coordinate) =>
        TurnPreservesConsistent(g, caller, coordinate);
        var g' := TurnOutcome(g, caller, coordinate).1;
        if TurnOutcome(g, caller, coordinate).0.Ok? {
          PlaceNeverOverwrites(g.cells, StatusFromByte(g.status).player, coordinate as nat, i);
        }
        RunNeverOverwrites(g', calls[1..], i);
    }
  }

  /** Once the game has started, the second player stays bound to the same identity and the game never returns to `NotStarted`. */
  lemma {:induction false} RunKeepsSecondPlayer(g: State, calls: seq<Call>)
    requires |g.cells| == Size && !StatusFromByte(g.status).NotStarted?
    ensures Run(g, calls).playerO == g.playerO
    ensures !StatusFromByte(Run(g, calls).status).NotStarted?
    decreases |calls|
  {
    if calls != [] {
      var g' := match calls[0]
        case Join(caller) => JoinOutcome(g, caller).1
        case Move(caller, coordinate) => TurnOutcome(g, caller, coordinate).1;
      match calls[0] {
        case Join(caller) =>
        case Move(caller, coordinate) =>
          if TurnOutcome(g, caller, coordinate).0.Ok? {
            TurnSuccess(g, caller, coordinate);
            var p := StatusFromByte(g.status).player;
            CheckStateSound(Place(g.cells, p, coordinate as nat).1, p, coordinate as nat);
          }
      }
      RunKeepsSecondPlayer(g', calls[1..]);
    }
  }

  /** Once the game is won or drawn, no sequence of calls changes anything. */
  lemma {:induction false} RunTerminalStays(g: State, calls: seq<Call>)
    requires |g.cells| == Size && StatusFromByte(g.status).IsTerminal()
    ensures Run(g, calls) == g
    decreases |calls|
  {
    if calls != [] {
      match calls[0] {
        case Join(caller) =>
          TerminalIsAbsorbing(g, caller, 0);
        case Move(caller, coordinate) =>
          TerminalIsAbsorbing(g, caller, coordinate);
      }
      RunTerminalStays(g, calls[1..]);
    }
  }

  // ---------------------------------------------------------------------------
  // The contract object

  /** `TicTacToe`: the contract's storage and its messages. */
  class TicTacToe {
    var playerX: AccountId
    var playerO: Option<AccountId>
    const board: array<Cell>
    var gameStatus: u8

    /** The stored state as a value. */
    ghost function Abstract(): State
      reads this, board
    {
      State(playerX, playerO, board[..], gameStatus)
    }

    ghost predicate Valid()
      reads this, board
    {
      board.Length == Size && Consistent(Abstract())
    }

    /** `new`: the caller plays X and any identity may join as O. */
    constructor New(caller: AccountId)
      ensures Valid() && fresh(board)
      ensures Abstract() == NewGame(caller, None)
    {
      playerX := caller;
      playerO := None;
      board := new Cell[Size](_ => None);
      gameStatus := StatusToByte(NotStarted);
      new;
      assert board[..] == Default(Size);
      NewGameConsistent(caller, None);
    }

    /** `with_opponent`: the caller plays X and only `opponent` may join as O. */
    constructor WithOpponent(caller: AccountId, opponent: AccountId)
      ensures Valid() && fresh(board)
      ensures Abstract() == NewGame(caller, Some(opponent))
    {
      playerX := caller;
      playerO := Some(opponent);
      board := new Cell[Size](_ => None);
      gameStatus := StatusToByte(NotStarted);
      new;
      assert board[..] == Default(Size);
      NewGameConsistent(caller, Some(opponent));
    }

    /** `join_game`. */
    method JoinGame(caller: AccountId) returns (r: Result<()>)
      requires Valid()
      modifies this
      ensures Valid()
      ensures (r, Abstract()) == JoinOutcome(old(Abstract()), caller)
    {
      JoinPreservesConsistent(Abstract(), caller);
      var status := StatusFromByte(gameStatus);
      if !status.NotStarted? {
        r := Err(GameAlreadyStarted);
      } else if caller == playerX {
        r := Err(ForGameNeedsAtLeast2Players);
      } else if status.NotStarted? && playerO.Some? && playerO.value != caller {
        r := Err(WaitingAnotherDefinedPlayer);
      } else {
        playerO := Some(caller);
        var turningPlayer := XPlayer;
        gameStatus := StatusToByte(PlayerTurning(turningPlayer));
        r := Ok(());
      }
    }

    /** `turn`. */
    method Turn(caller: AccountId, coordinate: u8) returns (r: Result<()>)
      requires Valid()
      modifies this, board
      ensures Valid()
      ensures (r, Abstract()) == TurnOutcome(old(Abstract()), caller, coordinate)
    {
      TurnPreservesConsistent(Abstract(), caller, coordinate);
      if playerO.None? {
        return Err(GameNotStarted);
      }
      var oPlayer := playerO.value;
      var player: Player;
      if caller == oPlayer {
        player := OPlayer;
      } else if caller == playerX {
        player := XPlayer;
      } else {
        return Err(UnknownPlayer);
      }
      var status := StatusFromByte(gameStatus);
      match status {
        case NotStarted =>
          r := Err(GameNotStarted);
        case PlayerWin(_) =>
          r := Err(GameAlreadyOver);
        case Draw =>
          r := Err(GameAlreadyOver);
        case PlayerTurning(turning) =>
          if turning != player {
            return Err(AnotherPlayerShouldTurn);
          }
          r := Board.Turn(board, player, coordinate as nat);
          if r.Err? {
            return;
          }
          match CheckState(board[..], player, coordinate as nat) {
            case None => SwitchPlayer();
            case Some(gs) => gameStatus := StatusToByte(gs);
          }
          r := Ok(());
      }
    }

    /** `switch_player`: only reachable while a player is to move. */
    method SwitchPlayer()
      requires StatusFromByte(gameStatus).PlayerTurning?
      modifies this`gameStatus
      ensures gameStatus == StatusToByte(SwitchedStatus(StatusFromByte(old(gameStatus))))
    {
      var next := match StatusFromByte(gameStatus) {
        case PlayerTurning(player) =>
          if player == XPlayer then PlayerTurning(OPlayer) else PlayerTurning(XPlayer)
      };
      gameStatus := StatusToByte(next);
    }

    /** `get_turning_player`: the identity that may move now, and nobody outside a `PlayerTurning` phase. */
    function GetTurningPlayer(): (r: Option<AccountId>)
      reads this, board
      requires Valid()
      ensures r.None? <==> !StatusFromByte(gameStatus).PlayerTurning?
      ensures forall caller :: r == Some(caller) <==> MayMove(Abstract(), caller)
    {
      match StatusFromByte(gameStatus)
      case NotStarted => None
      case Draw => None
      case PlayerWin(_) => None
      case PlayerTurning(player) =>
        match player
        case XPlayer => Some(playerX)
        case OPlayer => Some(playerO.value)
    }

    /** `get_game_status`: the stored code decodes without loss. */
    function GetGameStatus(): (gs: GameStatus)
      reads this, board
      requires Valid()
      ensures StatusToByte(gs) == gameStatus
    {
      StatusFromByte(gameStatus)
    }

    /** `get_board`: nine cells, each empty or holding a mark code. */
    function GetBoard(): (cells: seq<Cell>)
      reads this, board
      requires Valid()
      ensures |cells| == Size
      ensures forall i :: 0 <= i < |cells| ==> cells[i] == None || cells[i] == Some(0) || cells[i] == Some(1)
    {
      board[..]
    }
  }
}
