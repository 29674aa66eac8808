/**
 * The physics component every entity slot may carry: where it is, how big
 * it is, how fast it moves, where it faces and whether it is walking.
 */
module Physics {
  import opened Wrappers
  import opened Positioning
  import Keyboard

  datatype Direction = Up | Down | Left | Right {

    /** `Direction::to_index`: the sprite-table row of a direction. */
    function ToIndex(): (i: nat)
      ensures i < 4
      ensures FromIndex(i) == this
    {
      match this
      case Up => 0
      case Right => 1
      case Down => 2
      case Left => 3
    }

    /** The lower-case name the direction serialises to; parsing it gives the direction back. */
    function Name(): (s: string)
      ensures FromName(s) == Some(this)
    {
      match this
      case Up => "up"
      case Down => "down"
      case Left => "left"
      case Right => "right"
    }
  }

  /** The derived `FromStr` of `Direction`: exactly the four serialised names parse. */
  function FromName(s: string): (d: Option<Direction>)
    ensures d.Some? <==> s in {"up", "down", "left", "right"}
  {
    if s == "up" then Some(Up)
    else if s == "down" then Some(Down)
    else if s == "left" then Some(Left)
    else if s == "right" then Some(Right)
    else None
  }

  /** Names and directions correspond one to one: a name that parses is the name of what it parses to. */
  lemma NameRoundTrip(s: string, d: Direction)
    ensures FromName(s) == Some(d) <==> d.Name() == s
  {
  }

  /** The inverse of `ToIndex` on 0..3. */
  function FromIndex(i: nat): (d: Direction)
    requires i < 4
  {
    if i == 0 then Up else if i == 1 then Right else if i == 2 then Down else Left
  }

  /** `ToIndex` is a bijection between the four directions and {0, 1, 2, 3}. */
  lemma ToIndexBijective()
    ensures forall d: Direction, e: Direction :: d.ToIndex() == e.ToIndex() ==> d == e
    ensures forall i: nat :: i < 4 ==> FromIndex(i).ToIndex() == i
  {
    forall d: Direction, e: Direction | d.ToIndex() == e.ToIndex()
      ensures d == e
    {
      assert FromIndex(d.ToIndex()) == d && FromIndex(e.ToIndex()) == e;
    }
  }

  /** The direction a movement key faces, if it is an arrow. */
  function KeyDirection(key: Keyboard.KeyCode): (d: Option<Direction>)
    ensures d.Some? <==> Keyboard.IsArrow(key)
  {
    match key
    case Up => Some(Up)
    case Down => Some(Down)
    case Left => Some(Left)
    case Right => Some(Right)
    case _ => None
  }

  /** A physics component; the render colour is not modelled. */
  datatype Physics = Physics(
    position: Position,
    size: Size,
    speed: real,
    direction: Option<Direction>,
    walking: bool)
  {
    /**
     * `Physics::update_position`: moves `speed * dt` along the key's axis,
     * marks the body as walking (for any key) and clamps the centre to the
     * world. `dt` is the frame time the framework's timer reports.
     */
    method UpdatePosition(key: Keyboard.KeyCode, dt: real, worldSize: Size) returns (p: Physics)
      ensures p == Moved(this, key, dt, worldSize)
    {
      p := this;
      match key {
        case Up => p := p.(position := p.position.(y := p.position.y - speed * dt));
        case Down => p := p.(position := p.position.(y := p.position.y + speed * dt));
        case Left => p := p.(position := p.position.(x := p.position.x - speed * dt));
        case Right => p := p.(position := p.position.(x := p.position.x + speed * dt));
        case _ =>
      }
      assert p == this.(position := Shifted(position, key, speed * dt));
      p := p.(walking := true);
      var clamped := p.position.ClampSelf(p.size, Position(worldSize.width, worldSize.height));
      p := p.(position := clamped);
    }
  }

  /** `Physics::new`: a body that is not walking, with the given fields. */
  function New(position: Position, size: Size, speed: real, direction: Option<Direction>): (p: Physics)
    ensures !p.walking
    ensures p.position == position && p.size == size && p.speed == speed && p.direction == direction
  {
    Physics(position, size, speed, direction, false)
  }

  /** The world rectangle as the far corner that clamping uses. */
  function WorldCorner(worldSize: Size): Position {
    Position(worldSize.width, worldSize.height)
  }

  /** A position shifted by `delta` along the axis of a movement key. */
  function Shifted(p: Position, key: Keyboard.KeyCode, delta: real): (r: Position)
    ensures (key.Up? || key.Down?) ==> r.x == p.x
    ensures (key.Left? || key.Right?) ==> r.y == p.y
    ensures !Keyboard.IsArrow(key) ==> r == p
    ensures key.Up? ==> r.y == p.y - delta
    ensures key.Down? ==> r.y == p.y + delta
    ensures key.Left? ==> r.x == p.x - delta
    ensures key.Right? ==> r.x == p.x + delta
  {
    match key
    case Up => p.(y := p.y - delta)
    case Down => p.(y := p.y + delta)
    case Left => p.(x := p.x - delta)
    case Right => p.(x := p.x + delta)
    case _ => p
  }

  /** What `update_position` leaves behind. */
  function Moved(p: Physics, key: Keyboard.KeyCode, dt: real, worldSize: Size): (q: Physics)
    ensures q.walking
    ensures q.size == p.size && q.speed == p.speed && q.direction == p.direction
    ensures q.position == ClampedToArea(Shifted(p.position, key, p.speed * dt), p.size, WorldCorner(worldSize))
  {
    p.(position := ClampedToArea(Shifted(p.position, key, p.speed * dt), p.size, WorldCorner(worldSize)),
       walking := true)
  }

  /** A body that fits in the world stays inside it after any update. */
  lemma MovedStaysInWorld(p: Physics, key: Keyboard.KeyCode, dt: real, worldSize: Size)
    requires Fits(p.size, WorldCorner(worldSize))
    ensures InsideArea(Moved(p, key, dt, worldSize).position, p.size, WorldCorner(worldSize))
  {
    ClampedToAreaInside(Shifted(p.position, key, p.speed * dt), p.size, WorldCorner(worldSize));
  }

  /** A non-arrow key leaves a body that is inside the world where it was. */
  lemma MovedByOtherKeyStays(p: Physics, key: Keyboard.KeyCode, dt: real, worldSize: Size)
    requires !Keyboard.IsArrow(key)
    requires InsideArea(p.position, p.size, WorldCorner(worldSize))
    ensures Moved(p, key, dt, worldSize) == p.(walking := true)
  {
    ClampedToAreaFixedPoint(p.position, p.size, WorldCorner(worldSize));
  }
}
