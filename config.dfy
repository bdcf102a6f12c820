/**
 * Constants and the cell-type enumeration of the game (game_core/config.py).
 * The file has no behaviour of its own.
 */
module Config {

  /** Coins a new player starts with. */
  const StartMoney := 10
  /** A player never holds more than this many shop cards. */
  const MaxHandSize := 3
  /** A finish roll of at least this much wins the game. */
  const WinningRoll := 6
  /** Capacity of the queue of active house rules. */
  const TaDamQueueSize := 3

  /** The kinds of cell on the track (the `CellType` enum). */
  datatype CellType =
    | Empty | Start
    | Red | Green
    | Shop | ChestGood | ChestBad | TaDam
    | Portal | Mine | Tornado | Duel | Bicycle | FortuneCube | FortunateSetup | Tribute | OhNo
    | FinishSafe
}
