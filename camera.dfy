/**
 * The scrolling camera: the world-to-screen translation and the rules that
 * decide when it follows the player. Two families of the rules exist: one
 * keyed by the player's facing `Direction`, and an older one keyed by the
 * pressed `KeyCode`, used by the movement resolver.
 */
module CameraSystem {
  import opened Wrappers
  import opened Positioning
  import opened Physics
  import opened Constants
  import Keyboard

  /** A camera: the centre of the viewport in world coordinates, its size and its scroll speed. */
  datatype Camera = Camera(position: Position, size: Size, speed: real) {

    /** Screen coordinates of a world point: the viewport's top-left corner is subtracted. */
    function WorldToScreen(worldPosition: Position): (s: Position)
      ensures s.x - worldPosition.x == size.WHalf() - position.x
      ensures s.y - worldPosition.y == size.HHalf() - position.y
    {
      Position(
        worldPosition.x - (position.x - size.WHalf()),
        worldPosition.y - (position.y - size.HHalf()))
    }

    /** `update_position(direction)`: one coordinate moves by `speed * dt`. */
    method UpdatePosition(direction: Direction, dt: real) returns (c: Camera)
      ensures c == Scrolled(this, direction, dt)
    {
      c := this;
      match direction {
        case Up => c := c.(position := c.position.(y := c.position.y - speed * dt));
        case Down => c := c.(position := c.position.(y := c.position.y + speed * dt));
        case Left => c := c.(position := c.position.(x := c.position.x - speed * dt));
        case Right => c := c.(position := c.position.(x := c.position.x + speed * dt));
      }
    }

    /**
     * The player, seen on screen, is in the outer third of the viewport on
     * the side it faces. The right threshold is `width - height / 3`, as
     * written in every copy of the rule.
     */
    predicate IsPlayerApproachingCameraEdge(playerPhysics: Physics): (r: bool)
      ensures r ==> playerPhysics.direction.Some?
      ensures playerPhysics.direction == Some(Direction.Left) ==>
        (r <==> playerPhysics.position.x < position.x - size.WHalf() + size.width / 3.0)
      ensures playerPhysics.direction == Some(Direction.Up) ==>
        (r <==> playerPhysics.position.y < position.y - size.HHalf() + size.height / 3.0)
      ensures playerPhysics.direction == Some(Direction.Right) ==>
        (r <==> playerPhysics.position.x > position.x + size.WHalf() - size.height / 3.0)
      ensures playerPhysics.direction == Some(Direction.Down) ==>
        (r <==> playerPhysics.position.y > position.y + size.HHalf() - size.height / 3.0)
    {
      var playerCameraPosition := WorldToScreen(playerPhysics.position);
      var cameraWThird := size.width / 3.0;
      var cameraHThird := size.height / 3.0;
      var leftBoundry := cameraWThird;
      var topBoundry := cameraHThird;
      var bottomBoundry := size.height - cameraHThird;
      var rightBoundry := size.width - cameraHThird;
      (playerCameraPosition.x < leftBoundry && playerPhysics.direction == Some(Direction.Left))
      || (playerCameraPosition.y < topBoundry && playerPhysics.direction == Some(Direction.Up))
      || (playerCameraPosition.x > rightBoundry && playerPhysics.direction == Some(Direction.Right))
      || (playerCameraPosition.y > bottomBoundry && playerPhysics.direction == Some(Direction.Down))
    }

    /**
     * Scrolling in `direction` is allowed unless the viewport edge on that
     * side is already `DEFAULT_CAMERA_OFFSET` or more beyond the world.
     */
    predicate IsWithinWorldBounds(worldSize: Size, direction: Direction): (r: bool)
      ensures direction.Left? ==> (r <==> position.x - size.WHalf() > - DEFAULT_CAMERA_OFFSET)
      ensures direction.Up? ==> (r <==> position.y - size.HHalf() > - DEFAULT_CAMERA_OFFSET)
      ensures direction.Right? ==> (r <==> position.x + size.WHalf() < worldSize.width + DEFAULT_CAMERA_OFFSET)
      ensures direction.Down? ==> (r <==> position.y + size.HHalf() < worldSize.height + DEFAULT_CAMERA_OFFSET)
    {
      var leftBoundry := position.x - size.WHalf() <= - DEFAULT_CAMERA_OFFSET;
      var topBoundry := position.y - size.HHalf() <= - DEFAULT_CAMERA_OFFSET;
      var rightBoundry := position.x + size.WHalf() >= worldSize.width + DEFAULT_CAMERA_OFFSET;
      var bottomBoundry := position.y + size.HHalf() >= worldSize.height + DEFAULT_CAMERA_OFFSET;
      !((leftBoundry && direction == Direction.Left)
        || (topBoundry && direction == Direction.Up)
        || (bottomBoundry && direction == Direction.Down)
        || (rightBoundry && direction == Direction.Right))
    }

    /**
     * `Camera::maybe_update`: scrolls in the player's direction iff the
     * player approaches that edge and the world bounds allow it. The source
     * unwraps the direction, so it must be present.
     */
    method MaybeUpdate(playerPhysics: Physics, worldSize: Size, dt: real) returns (c: Camera)
      requires playerPhysics.direction.Some?
      ensures c == MaybeScrolled(this, playerPhysics, worldSize, dt)
    {
      c := this;
      var shouldUpdateCamera := IsPlayerApproachingCameraEdge(playerPhysics)
        && IsWithinWorldBounds(worldSize, playerPhysics.direction.value);
      if shouldUpdateCamera {
        c := UpdatePosition(playerPhysics.direction.value, dt);
      }
    }

    /** The key-driven `update_position`: a non-arrow key leaves the camera where it is. */
    method UpdatePositionForKey(key: Keyboard.KeyCode, dt: real) returns (c: Camera)
      ensures c == ScrolledForKey(this, key, dt)
    {
      c := this;
      match key {
        case Up => c := c.(position := c.position.(y := c.position.y - speed * dt));
        case Down => c := c.(position := c.position.(y := c.position.y + speed * dt));
        case Left => c := c.(position := c.position.(x := c.position.x - speed * dt));
        case Right => c := c.(position := c.position.(x := c.position.x + speed * dt));
        case _ =>
      }
    }

    /** The edge rule with the direction given by the pressed key. */
    predicate IsPlayerApproachingCameraEdgeForKey(playerPosition: Position, key: Keyboard.KeyCode): (r: bool)
      ensures r ==> Keyboard.IsArrow(key)
      ensures key == Keyboard.Left ==> (r <==> playerPosition.x < position.x - size.WHalf() + size.width / 3.0)
      ensures key == Keyboard.Up ==> (r <==> playerPosition.y < position.y - size.HHalf() + size.height / 3.0)
      ensures key == Keyboard.Right ==> (r <==> playerPosition.x > position.x + size.WHalf() - size.height / 3.0)
      ensures key == Keyboard.Down ==> (r <==> playerPosition.y > position.y + size.HHalf() - size.height / 3.0)
    {
      var playerCameraPosition := WorldToScreen(playerPosition);
      var cameraWThird := size.width / 3.0;
      var cameraHThird := size.height / 3.0;
      var leftBoundry := cameraWThird;
      var topBoundry := cameraHThird;
      var bottomBoundry := size.height - cameraHThird;
      var rightBoundry := size.width - cameraHThird;
      (playerCameraPosition.x < leftBoundry && key == Keyboard.Left)
      || (playerCameraPosition.y < topBoundry && key == Keyboard.Up)
      || (playerCameraPosition.x > rightBoundry && key == Keyboard.Right)
      || (playerCameraPosition.y > bottomBoundry && key == Keyboard.Down)
    }

    /** The bounds rule with the direction given by the pressed key. */
    predicate IsWithinWorldBoundsForKey(worldSize: Size, key: Keyboard.KeyCode): (r: bool)
      ensures !Keyboard.IsArrow(key) ==> r
      ensures key == Keyboard.Left ==> (r <==> position.x - size.WHalf() > - DEFAULT_CAMERA_OFFSET)
      ensures key == Keyboard.Up ==> (r <==> position.y - size.HHalf() > - DEFAULT_CAMERA_OFFSET)
      ensures key == Keyboard.Right ==> (r <==> position.x + size.WHalf() < worldSize.width + DEFAULT_CAMERA_OFFSET)
      ensures key == Keyboard.Down ==> (r <==> position.y + size.HHalf() < worldSize.height + DEFAULT_CAMERA_OFFSET)
    {
      var leftBoundry := position.x - size.WHalf() <= - DEFAULT_CAMERA_OFFSET;
      var topBoundry := position.y - size.HHalf() <= - DEFAULT_CAMERA_OFFSET;
      var rightBoundry := position.x + size.WHalf() >= worldSize.width + DEFAULT_CAMERA_OFFSET;
      var bottomBoundry := position.y + size.HHalf() >= worldSize.height + DEFAULT_CAMERA_OFFSET;
      !((leftBoundry && key == Keyboard.Left)
        || (topBoundry && key == Keyboard.Up)
        || (bottomBoundry && key == Keyboard.Down)
        || (rightBoundry && key == Keyboard.Right))
    }
  }

  /** `Camera::new`: the default viewport and speed, centred on `position`. */
  function New(position: Position): (c: Camera)
    ensures c.position == position
    ensures c.size == Size(DEFAULT_CAMERA_W, DEFAULT_CAMERA_H) && c.size == Size(1600.0, 800.0)
    ensures c.speed == DEFAULT_CAMERA_SPEED && c.speed == 125.0
  {
    Camera(position, Size(DEFAULT_CAMERA_W, DEFAULT_CAMERA_H), DEFAULT_CAMERA_SPEED)
  }

  /** The camera after one scroll step in `direction`. */
  function Scrolled(c: Camera, direction: Direction, dt: real): (r: Camera)
    ensures r.size == c.size && r.speed == c.speed
    ensures (direction.Up? || direction.Down?) ==> r.position.x == c.position.x
    ensures (direction.Left? || direction.Right?) ==> r.position.y == c.position.y
    ensures direction.Up? ==> r.position.y == c.position.y - c.speed * dt
    ensures direction.Down? ==> r.position.y == c.position.y + c.speed * dt
    ensures direction.Left? ==> r.position.x == c.position.x - c.speed * dt
    ensures direction.Right? ==> r.position.x == c.position.x + c.speed * dt
  {
    match direction
    case Up => c.(position := c.position.(y := c.position.y - c.speed * dt))
    case Down => c.(position := c.position.(y := c.position.y + c.speed * dt))
    case Left => c.(position := c.position.(x := c.position.x - c.speed * dt))
    case Right => c.(position := c.position.(x := c.position.x + c.speed * dt))
  }

  /** The camera after one key-driven scroll step. */
  function ScrolledForKey(c: Camera, key: Keyboard.KeyCode, dt: real): (r: Camera)
    ensures KeyDirection(key).Some? ==> r == Scrolled(c, KeyDirection(key).value, dt)
    ensures KeyDirection(key).None? ==> r == c
  {
    match KeyDirection(key)
    case Some(d) => Scrolled(c, d, dt)
    case None => c
  }

  /** The camera that `maybe_update` and `maybe_update_camera` produce. */
  function MaybeScrolled(c: Camera, playerPhysics: Physics, worldSize: Size, dt: real): Camera
    requires playerPhysics.direction.Some?
  {
    if c.IsPlayerApproachingCameraEdge(playerPhysics)
       && c.IsWithinWorldBounds(worldSize, playerPhysics.direction.value)
    then Scrolled(c, playerPhysics.direction.value, dt)
    else c
  }

  /**
   * `maybe_update_camera`: the same rule applied to a clone; the camera
   * passed in is a value and is left as it was.
   */
  method MaybeUpdateCamera(camera: Camera, playerPhysics: Physics, worldSize: Size, dt: real)
    returns (newCamera: Camera)
    requires playerPhysics.direction.Some?
    ensures newCamera == MaybeScrolled(camera, playerPhysics, worldSize, dt)
    ensures newCamera.size == camera.size && newCamera.speed == camera.speed
  {
    newCamera := camera;
    var shouldUpdateCamera := newCamera.IsPlayerApproachingCameraEdge(playerPhysics)
      && newCamera.IsWithinWorldBounds(worldSize, playerPhysics.direction.value);
    if shouldUpdateCamera {
      newCamera := newCamera.UpdatePosition(playerPhysics.direction.value, dt);
    }
  }

  /** The camera's own centre is drawn at the centre of the screen. */
  lemma CameraCentreOnScreenCentre(c: Camera)
    ensures c.WorldToScreen(c.position) == Position(c.size.WHalf(), c.size.HHalf())
  {
  }

  /** `world_to_screen` is a translation: differences between points are preserved. */
  lemma WorldToScreenPreservesDifferences(c: Camera, a: Position, b: Position)
    ensures c.WorldToScreen(a).x - c.WorldToScreen(b).x == a.x - b.x
    ensures c.WorldToScreen(a).y - c.WorldToScreen(b).y == a.y - b.y
  {
  }

  /** The screen x past which a player facing right makes the camera follow. */
  function RightThreshold(c: Camera): real {
    c.size.width - c.size.height / 3.0
  }

  /** The edge rule, one side at a time: the facing direction selects the threshold. */
  lemma ApproachingEdgeBySide(c: Camera, p: Physics)
    ensures p.direction.None? ==> !c.IsPlayerApproachingCameraEdge(p)
    ensures p.direction == Some(Direction.Left) ==>
      (c.IsPlayerApproachingCameraEdge(p) <==> c.WorldToScreen(p.position).x < c.size.width / 3.0)
    ensures p.direction == Some(Direction.Up) ==>
      (c.IsPlayerApproachingCameraEdge(p) <==> c.WorldToScreen(p.position).y < c.size.height / 3.0)
    ensures p.direction == Some(Direction.Down) ==>
      (c.IsPlayerApproachingCameraEdge(p) <==>
         c.WorldToScreen(p.position).y > c.size.height - c.size.height / 3.0)
    ensures p.direction == Some(Direction.Right) ==>
      (c.IsPlayerApproachingCameraEdge(p) <==> c.WorldToScreen(p.position).x > RightThreshold(c))
  {
  }

  /** With the default 1600 x 800 viewport the right threshold is 1600 - 800/3, not 1600 - 1600/3. */
  lemma DefaultRightThreshold(p: Position)
    ensures RightThreshold(New(p)) == 1600.0 - 800.0 / 3.0
    ensures RightThreshold(New(p)) > 1600.0 - 1600.0 / 3.0
  {
  }

  /** A player in the middle band of the viewport never makes the camera follow. */
  lemma DeadZoneNeverScrolls(c: Camera, p: Physics)
    requires c.size.width / 3.0 <= c.WorldToScreen(p.position).x <= RightThreshold(c)
    requires c.size.height / 3.0 <= c.WorldToScreen(p.position).y <= c.size.height - c.size.height / 3.0
    ensures !c.IsPlayerApproachingCameraEdge(p)
  {
  }

  /** The bounds rule fails only when heading toward an edge already at or past the offset. */
  lemma WithinWorldBoundsBySide(c: Camera, worldSize: Size, d: Direction)
    ensures !c.IsWithinWorldBounds(worldSize, d) <==>
      (d.Left? && c.position.x - c.size.WHalf() <= - DEFAULT_CAMERA_OFFSET)
      || (d.Up? && c.position.y - c.size.HHalf() <= - DEFAULT_CAMERA_OFFSET)
      || (d.Right? && c.position.x + c.size.WHalf() >= worldSize.width + DEFAULT_CAMERA_OFFSET)
      || (d.Down? && c.position.y + c.size.HHalf() >= worldSize.height + DEFAULT_CAMERA_OFFSET)
  {
  }

  /**
   * Moving away from a blocked edge is always permitted, as long as the
   * viewport is narrower (or lower) than the world plus both offsets.
   */
  lemma AwayFromBlockedEdgePermitted(c: Camera, worldSize: Size)
    requires c.size.width < worldSize.width + 2.0 * DEFAULT_CAMERA_OFFSET
    requires c.size.height < worldSize.height + 2.0 * DEFAULT_CAMERA_OFFSET
    ensures !c.IsWithinWorldBounds(worldSize, Direction.Left) ==> c.IsWithinWorldBounds(worldSize, Direction.Right)
    ensures !c.IsWithinWorldBounds(worldSize, Direction.Right) ==> c.IsWithinWorldBounds(worldSize, Direction.Left)
    ensures !c.IsWithinWorldBounds(worldSize, Direction.Up) ==> c.IsWithinWorldBounds(worldSize, Direction.Down)
    ensures !c.IsWithinWorldBounds(worldSize, Direction.Down) ==> c.IsWithinWorldBounds(worldSize, Direction.Up)
  {
  }

  /**
   * The camera that `maybe_update` returns differs from the input iff both
   * rules hold (and the step is not zero), and then only on the axis of the
   * player's direction.
   */
  lemma MaybeScrolledChangesIffBothRules(c: Camera, p: Physics, worldSize: Size, dt: real)
    requires p.direction.Some?
    ensures MaybeScrolled(c, p, worldSize, dt) != c <==>
      c.IsPlayerApproachingCameraEdge(p) && c.IsWithinWorldBounds(worldSize, p.direction.value)
      && c.speed * dt != 0.0
    ensures MaybeScrolled(c, p, worldSize, dt).size == c.size
    ensures MaybeScrolled(c, p, worldSize, dt).speed == c.speed
    ensures (p.direction.value.Left? || p.direction.value.Right?) ==>
      MaybeScrolled(c, p, worldSize, dt).position.y == c.position.y
    ensures (p.direction.value.Up? || p.direction.value.Down?) ==>
      MaybeScrolled(c, p, worldSize, dt).position.x == c.position.x
  {
  }

  /** On an arrow key, the key rules agree with the direction rules for a player facing that key. */
  lemma KeyRulesAgreeWithDirectionRules(c: Camera, p: Physics, key: Keyboard.KeyCode, worldSize: Size)
    requires Keyboard.IsArrow(key)
    requires p.direction == KeyDirection(key)
    ensures c.IsPlayerApproachingCameraEdgeForKey(p.position, key) <==> c.IsPlayerApproachingCameraEdge(p)
    ensures c.IsWithinWorldBoundsForKey(worldSize, key) <==> c.IsWithinWorldBounds(worldSize, p.direction.value)
  {
  }

  /** A key that is not an arrow never scrolls and is never blocked. */
  lemma OtherKeyNeverScrolls(c: Camera, pos: Position, key: Keyboard.KeyCode, worldSize: Size, dt: real)
    requires !Keyboard.IsArrow(key)
    ensures !c.IsPlayerApproachingCameraEdgeForKey(pos, key)
    ensures c.IsWithinWorldBoundsForKey(worldSize, key)
    ensures ScrolledForKey(c, key, dt) == c
  {
  }
}
