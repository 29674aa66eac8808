/**
 * The framework's key codes. Only the keys the game reacts to are named;
 * every other key is `Other`, told apart by an arbitrary code.
 */
module Keyboard {
  datatype KeyCode = Up | Down | Left | Right | Return | Escape | Other(code: nat)

  /** One of the four movement (arrow) keys. */
  predicate IsArrow(key: KeyCode) {
    key.Up? || key.Down? || key.Left? || key.Right?
  }

  /** The order in which the movement keys are scanned: Up, Down, Left, Right. */
  const MovementKeys: seq<KeyCode> := [Up, Down, Left, Right]

  /** Position of a key in `MovementKeys`; 4 for a key that is not an arrow. */
  function ScanRank(key: KeyCode): (r: nat)
    ensures r <= 4
    ensures r < 4 <==> IsArrow(key)
    ensures r < 4 ==> MovementKeys[r] == key
  {
    match key
    case Up => 0
    case Down => 1
    case Left => 2
    case Right => 3
    case _ => 4
  }
}
