/** Application-wide constants and the application state enum of `src/main.rs`. */
module Config {

  /** Players per round. */
  const NUM_PLAYERS: nat := 2
  /** Rollback update frequency. */
  const FPS: nat := 60
  /** GGRS prediction window. */
  const MAX_PREDICTION: nat := 12
  /** GGRS input delay, in frames. */
  const INPUT_DELAY: nat := 2
  /** Sync-test check distance, in frames. */
  const CHECK_DISTANCE: nat := 2

  /** The application states, with the names the menu code uses. */
  datatype AppState =
    | AssetLoading
    | MenuMain
    | MenuOnline
    | MenuConnect
    | RoundLocal
    | RoundOnline
    | Win
  {
    /** The two states in which a round is being played. */
    predicate IsRound() {
      this == RoundLocal || this == RoundOnline
    }
  }
}
