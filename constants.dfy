/** Tuning constants of the game (the current constants file). */
module Constants {
  const HUMANOID_W: real := 30.0
  const HUMANOID_H: real := 60.0
  const DESK_H: real := 70.0
  const DESK_W: real := 150.0

  const INITIAL_PLAYER_X: real := 1000.0
  const INITIAL_PLAYER_Y: real := 500.0
  const INITIAL_PLAYER_SPEED: real := 125.0

  const INTIAL_WORLD_W: real := 2000.0
  const INTIAL_WORLD_H: real := 1000.0

  const DEFAULT_WINDOW_W: real := 1600.0
  const DEFAULT_WINDOW_H: real := 800.0

  const DEFAULT_CAMERA_OFFSET: real := 80.0
  const DEFAULT_CAMERA_SPEED: real := 125.0
  const DEFAULT_CAMERA_W: real := DEFAULT_WINDOW_W
  const DEFAULT_CAMERA_H: real := DEFAULT_WINDOW_H

  const NPC_COUNT: nat := 4
}
