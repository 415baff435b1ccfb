/** The two-state game-over toggle (src/level/state.rs). */
module LevelState {

  datatype GameState = Playing | GameOver

  /** `toggle_game_over`: the state the toggle requests next. */
  function ToggleGameOver(state: GameState): (next: GameState)
    ensures state == Playing ==> next == GameOver
    ensures state == GameOver ==> next == Playing
    ensures next != state
  {
    if state == Playing then GameOver else Playing
  }

  /** Toggling twice comes back to where it started. */
  lemma ToggleTwice(state: GameState)
    ensures ToggleGameOver(ToggleGameOver(state)) == state
  {
  }
}
