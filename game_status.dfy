/** The game's phase and its one-byte storage code (game_status.rs). */
module Status {
  import opened Types
  import opened Board

  datatype GameStatus =
    | NotStarted
    | PlayerTurning(player: Player)
    | PlayerWin(winner: Player)
    | Draw
  {
    /** `PlayerWin` and `Draw` admit no further move. */
    predicate IsTerminal() { PlayerWin? || Draw? }
  }

  /** `u8::from(GameStatus)`: every status has its own code, and no code exceeds 5. */
  function StatusToByte(gs: GameStatus): (n: u8)
    ensures n <= 5
    ensures StatusFromByte(n) == gs
  {
    match gs
    case NotStarted => 0
    case PlayerTurning(XPlayer) => 1
    case PlayerTurning(OPlayer) => 2
    case PlayerWin(XPlayer) => 3
    case PlayerWin(OPlayer) => 4
    case Draw => 5
  }

  /** `GameStatus::from(u8)`: total; every code from 5 upwards reads as `Draw`. */
  function StatusFromByte(n: u8): GameStatus {
    match n
    case 0 => NotStarted
    case 1 => PlayerTurning(XPlayer)
    case 2 => PlayerTurning(OPlayer)
    case 3 => PlayerWin(XPlayer)
    case 4 => PlayerWin(OPlayer)
    case _ => Draw
  }

  /** The code table, value by value. */
  lemma StatusCodes()
    ensures StatusToByte(NotStarted) == 0
    ensures StatusToByte(PlayerTurning(XPlayer)) == 1 && StatusToByte(PlayerTurning(OPlayer)) == 2
    ensures StatusToByte(PlayerWin(XPlayer)) == 3 && StatusToByte(PlayerWin(OPlayer)) == 4
    ensures StatusToByte(Draw) == 5
  {
  }

  /** Two statuses with the same code are the same status. */
  lemma StatusToByteInjective(a: GameStatus, b: GameStatus)
    ensures StatusToByte(a) == StatusToByte(b) <==> a == b
  {
  }

  /** Decoding is exact on 0..4 and saturates to `Draw` on every larger byte. */
  lemma StatusFromByteTable(n: u8)
    ensures n == 0 ==> StatusFromByte(n) == NotStarted
    ensures n == 1 ==> StatusFromByte(n) == PlayerTurning(XPlayer)
    ensures n == 2 ==> StatusFromByte(n) == PlayerTurning(OPlayer)
    ensures n == 3 ==> StatusFromByte(n) == PlayerWin(XPlayer)
    ensures n == 4 ==> StatusFromByte(n) == PlayerWin(OPlayer)
    ensures n >= 5 ==> StatusFromByte(n) == Draw
  {
  }

  /** Encoding after decoding gives the byte back when it is a code, and 5 otherwise. */
  lemma StatusByteRoundTrip(n: u8)
    ensures StatusToByte(StatusFromByte(n)) == if n <= 5 then n else 5
  {
  }
}
