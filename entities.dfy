/**
 * The first prototype's entities: a square player walked by the arrow keys
 * and kept inside the window, and a map holding it and one desk.
 */
module Entities {
  import opened Keyboard
  import opened Positioning
  import Physics

  const PLAYER_SPEED: real := 200.0
  const PLAYER_W: real := 25.0
  const PLAYER_H: real := 25.0

  /** A desk of this prototype: only its centre. */
  datatype Desk = Desk(position: Position)

  /** Where `walk` leaves a centre: shifted along the key's axis, then clamped to the drawable area. */
  function Walked(p: Position, size: Size, key: KeyCode, dt: real, drawableSize: Position): Position {
    ClampedToArea(Physics.Shifted(p, key, PLAYER_SPEED * dt), size, drawableSize)
  }

  /** The centre after `walk` is called for each pressed key of `keys`, in order. */
  function WalkedAll(p: Position, size: Size, keys: seq<KeyCode>, isKeyPressed: KeyCode -> bool,
                     dt: real, drawableSize: Position): Position
    decreases |keys|
  {
    if keys == [] then p
    else
      var q := WalkedAll(p, size, keys[..|keys| - 1], isKeyPressed, dt, drawableSize);
      if isKeyPressed(keys[|keys| - 1]) then Walked(q, size, keys[|keys| - 1], dt, drawableSize) else q
  }

  class Player {
    var position: Position
    var size: Size

    /** `Player::new`: a 25 by 25 square centred at (200, 300). */
    constructor ()
      ensures position == Position(200.0, 300.0) && size == Size(PLAYER_W, PLAYER_H)
    {
      position := Position(200.0, 300.0);
      size := Size(PLAYER_W, PLAYER_H);
    }

    /**
     * `walk`: moves `PLAYER_SPEED * dt` along the key's axis, then clamps
     * the centre to the drawable area; a non-arrow key only clamps.
     */
    method Walk(direction: KeyCode, dt: real, drawableSize: Position)
      modifies this
      ensures position == Walked(old(position), old(size), direction, dt, drawableSize)
      ensures size == old(size)
    {
      match direction {
        case Up => position := position.(y := position.y - PLAYER_SPEED * dt);
        case Down => position := position.(y := position.y + PLAYER_SPEED * dt);
        case Left => position := position.(x := position.x - PLAYER_SPEED * dt);
        case Right => position := position.(x := position.x + PLAYER_SPEED * dt);
        case _ =>
      }
      position := position.ClampSelf(size, drawableSize);
    }
  }

  class Map {
    var player: Player
    var desks: seq<Desk>

    /** `Map::new`: a fresh player and a single desk centred at (200, 200). */
    constructor ()
      ensures fresh(player)
      ensures player.position == Position(200.0, 300.0) && player.size == Size(PLAYER_W, PLAYER_H)
      ensures desks == [Desk(Position(200.0, 200.0))]
    {
      var initialDesks: seq<Desk> := [];
      var firstDesk := Desk(Position(200.0, 200.0));
      initialDesks := initialDesks + [firstDesk];
      player := new Player();
      desks := initialDesks;
    }

    /** `update`: `walk` once for each pressed arrow, in the order Up, Down, Left, Right. */
    method Update(isKeyPressed: KeyCode -> bool, dt: real, drawableSize: Position)
      modifies player
      ensures player.position == WalkedAll(old(player.position), old(player.size), MovementKeys, isKeyPressed, dt, drawableSize)
      ensures player.size == old(player.size)
      ensures desks == old(desks)
    {
      var playerMovKeys := MovementKeys;
      for i := 0 to |playerMovKeys|
        invariant player.position == WalkedAll(old(player.position), old(player.size), playerMovKeys[..i], isKeyPressed, dt, drawableSize)
        invariant player.size == old(player.size)
      {
        assert playerMovKeys[..i + 1][..i] == playerMovKeys[..i];
        var key := playerMovKeys[i];
        if isKeyPressed(key) {
          player.Walk(key, dt, drawableSize);
        }
      }
      assert playerMovKeys[..|playerMovKeys|] == playerMovKeys;
    }
  }

  /** A player that fits in the area is inside it after any walk. */
  lemma WalkedInside(p: Position, size: Size, key: KeyCode, dt: real, drawableSize: Position)
    requires Fits(size, drawableSize)
    ensures InsideArea(Walked(p, size, key, dt, drawableSize), size, drawableSize)
  {
    ClampedToAreaInside(Physics.Shifted(p, key, PLAYER_SPEED * dt), size, drawableSize);
  }

  /** Inside the area, a walk that stays clear of the edges moves exactly `PLAYER_SPEED * dt` along the key's axis. */
  lemma WalkAwayFromEdges(p: Position, size: Size, key: KeyCode, dt: real, drawableSize: Position)
    requires InsideArea(Physics.Shifted(p, key, PLAYER_SPEED * dt), size, drawableSize)
    ensures Walked(p, size, key, dt, drawableSize) == Physics.Shifted(p, key, PLAYER_SPEED * dt)
  {
    ClampedToAreaFixedPoint(Physics.Shifted(p, key, PLAYER_SPEED * dt), size, drawableSize);
  }

  /** A non-arrow key leaves a player that is inside the area where it was. */
  lemma OtherKeyDoesNotMove(p: Position, size: Size, key: KeyCode, dt: real, drawableSize: Position)
    requires !IsArrow(key) && InsideArea(p, size, drawableSize)
    ensures Walked(p, size, key, dt, drawableSize) == p
  {
    ClampedToAreaFixedPoint(p, size, drawableSize);
  }

  /** With no key of `keys` pressed, the player does not move at all. */
  lemma {:induction false} NothingPressedNoMove(p: Position, size: Size, keys: seq<KeyCode>, isKeyPressed: KeyCode -> bool,
                                                dt: real, drawableSize: Position)
    requires forall i :: 0 <= i < |keys| ==> !isKeyPressed(keys[i])
    ensures WalkedAll(p, size, keys, isKeyPressed, dt, drawableSize) == p
    decreases |keys|
  {
    if keys != [] {
      NothingPressedNoMove(p, size, keys[..|keys| - 1], isKeyPressed, dt, drawableSize);
    }
  }

  /** A player that starts inside the area stays inside it, however many keys are pressed. */
  lemma {:induction false} WalkedAllInside(p: Position, size: Size, keys: seq<KeyCode>, isKeyPressed: KeyCode -> bool,
                                           dt: real, drawableSize: Position)
    requires InsideArea(p, size, drawableSize)
    ensures InsideArea(WalkedAll(p, size, keys, isKeyPressed, dt, drawableSize), size, drawableSize)
    decreases |keys|
  {
    if keys != [] {
      var q := WalkedAll(p, size, keys[..|keys| - 1], isKeyPressed, dt, drawableSize);
      WalkedAllInside(p, size, keys[..|keys| - 1], isKeyPressed, dt, drawableSize);
      if isKeyPressed(keys[|keys| - 1]) {
        WalkedInside(q, size, keys[|keys| - 1], dt, drawableSize);
      }
    }
  }

  /** With a single arrow pressed, one update is one walk in that direction. */
  lemma SingleKeyUpdate(p: Position, size: Size, key: KeyCode, isKeyPressed: KeyCode -> bool,
                        dt: real, drawableSize: Position)
    requires key in MovementKeys && isKeyPressed(key)
    requires forall k :: k in MovementKeys && k != key ==> !isKeyPressed(k)
    ensures WalkedAll(p, size, MovementKeys, isKeyPressed, dt, drawableSize) == Walked(p, size, key, dt, drawableSize)
  {
    var keys := MovementKeys;
    assert keys[..1] == [Up] && keys[..2] == [Up, Down] && keys[..3] == [Up, Down, Left];
    assert [Up][..0] == [];
    assert [Up, Down][..1] == [Up] && [Up, Down, Left][..2] == [Up, Down] && keys[..3] == [Up, Down, Left];
  }
}
