/**
 * Positions, sizes, and the clamping that keeps an object's centre far
 * enough from the edges of an area for the whole object to stay inside it.
 */
module Positioning {

  /** The centre of an object, in world coordinates. */
  datatype Position = Position(x: real, y: real) {

    /**
     * `Position::clamp_self`: clamps this centre, axis by axis, to
     * [w/2, area.x - w/2] x [h/2, area.y - h/2]. A value type updated in
     * place is modelled by returning its new value.
     */
    method ClampSelf(objectSize: Size, areaCoordinates: Position) returns (p: Position)
      ensures p == ClampedToArea(this, objectSize, areaCoordinates)
    {
      p := this;
      var x := Clamp(p.x, objectSize.WHalf(), areaCoordinates.x - objectSize.WHalf());
      p := p.(x := x);
      var y := Clamp(p.y, objectSize.HHalf(), areaCoordinates.y - objectSize.HHalf());
      p := p.(y := y);
    }
  }

  datatype Size = Size(width: real, height: real) {
    /** Half of the width. */
    function WHalf(): (r: real)
      ensures r + r == width
    {
      width * 0.5
    }

    /** Half of the height. */
    function HHalf(): (r: real)
      ensures r + r == height
    {
      height * 0.5
    }
  }

  /** The value `clamp` leaves behind: `low` below the range, `high` above it. */
  function Clamped(value: real, low: real, high: real): (r: real)
    ensures r == low || r == high || r == value
    ensures low <= high ==> low <= r <= high
    ensures low <= value <= high ==> r == value
    ensures value < low ==> r == low
    ensures low <= value && high < value ==> r == high
  {
    if value < low then low else if value > high then high else value
  }

  /** `clamp(&mut value, low, high)`: the value is overwritten only when out of range. */
  method Clamp(value: real, low: real, high: real) returns (v: real)
    ensures v == Clamped(value, low, high)
  {
    v := value;
    if v < low {
      v := low;
    } else if v > high {
      v := high;
    }
  }

  /** Where clamping sends a centre; a specification shared by every clamping operation. */
  function ClampedToArea(p: Position, objectSize: Size, area: Position): Position {
    Position(
      Clamped(p.x, objectSize.WHalf(), area.x - objectSize.WHalf()),
      Clamped(p.y, objectSize.HHalf(), area.y - objectSize.HHalf()))
  }

  /** The object fits in the area on both axes. */
  predicate Fits(objectSize: Size, area: Position) {
    objectSize.width <= area.x && objectSize.height <= area.y
  }

  /** The whole object, centred at `p`, lies inside [0, area.x] x [0, area.y]. */
  predicate InsideArea(p: Position, objectSize: Size, area: Position) {
    objectSize.WHalf() <= p.x <= area.x - objectSize.WHalf()
    && objectSize.HHalf() <= p.y <= area.y - objectSize.HHalf()
  }

  /**
   * `clamp_object(&mut position, &size, &area)`: the free-function form of
   * `clamp_self`, with the same effect on the position.
   */
  method ClampObject(objectPosition: Position, objectSize: Size, areaCoordinates: Position)
    returns (p: Position)
    ensures p == ClampedToArea(objectPosition, objectSize, areaCoordinates)
    ensures Fits(objectSize, areaCoordinates) ==> InsideArea(p, objectSize, areaCoordinates)
    ensures InsideArea(objectPosition, objectSize, areaCoordinates) ==> p == objectPosition
  {
    p := objectPosition;
    var x := Clamp(p.x, objectSize.WHalf(), areaCoordinates.x - objectSize.WHalf());
    p := p.(x := x);
    var y := Clamp(p.y, objectSize.HHalf(), areaCoordinates.y - objectSize.HHalf());
    p := p.(y := y);
  }

  /**
   * The oldest `clamp_object`, whose size is a (width, height) pair and whose
   * half extents are computed in place as `size.0 * 0.5` and `size.1 * 0.5`.
   */
  method ClampObjectSized(objectPosition: Position, objectSize: (real, real), areaCoordinates: Position)
    returns (p: Position)
    ensures p == ClampedToArea(objectPosition, Size(objectSize.0, objectSize.1), areaCoordinates)
    ensures objectSize.0 <= areaCoordinates.x && objectSize.1 <= areaCoordinates.y ==>
              objectSize.0 * 0.5 <= p.x <= areaCoordinates.x - objectSize.0 * 0.5
              && objectSize.1 * 0.5 <= p.y <= areaCoordinates.y - objectSize.1 * 0.5
  {
    var objectWHalf := objectSize.0 * 0.5;
    var objectHHalf := objectSize.1 * 0.5;
    p := objectPosition;
    var x := Clamp(p.x, objectSize.0 * 0.5, areaCoordinates.x - objectWHalf);
    p := p.(x := x);
    var y := Clamp(p.y, objectHHalf, areaCoordinates.y - objectHHalf);
    p := p.(y := y);
  }

  /** When the object fits, its clamped centre keeps the whole object inside the area. */
  lemma ClampedToAreaInside(p: Position, objectSize: Size, area: Position)
    requires Fits(objectSize, area)
    ensures InsideArea(ClampedToArea(p, objectSize, area), objectSize, area)
  {
  }

  /** A centre that already keeps the object inside the area is a fixed point. */
  lemma ClampedToAreaFixedPoint(p: Position, objectSize: Size, area: Position)
    requires InsideArea(p, objectSize, area)
    ensures ClampedToArea(p, objectSize, area) == p
  {
  }

  /** Clamping twice is clamping once, provided the object fits. */
  lemma ClampedToAreaIdempotent(p: Position, objectSize: Size, area: Position)
    requires Fits(objectSize, area)
    ensures ClampedToArea(ClampedToArea(p, objectSize, area), objectSize, area)
         == ClampedToArea(p, objectSize, area)
  {
    ClampedToAreaInside(p, objectSize, area);
    ClampedToAreaFixedPoint(ClampedToArea(p, objectSize, area), objectSize, area);
  }

  /** The axes are clamped independently: x never affects the clamped y, nor y the clamped x. */
  lemma ClampedToAreaAxesIndependent(p: Position, q: Position, objectSize: Size, area: Position)
    ensures p.x == q.x ==> ClampedToArea(p, objectSize, area).x == ClampedToArea(q, objectSize, area).x
    ensures p.y == q.y ==> ClampedToArea(p, objectSize, area).y == ClampedToArea(q, objectSize, area).y
  {
  }

  /** `clamp` is idempotent when its range is not empty. */
  lemma ClampedIdempotent(value: real, low: real, high: real)
    requires low <= high
    ensures Clamped(Clamped(value, low, high), low, high) == Clamped(value, low, high)
  {
  }

  /**
   * Clamping never moves a value further than needed: the result is at least
   * as close as the input to every point of the range.
   */
  lemma ClampedNearest(value: real, low: real, high: real, z: real)
    requires low <= z <= high
    ensures Dist(Clamped(value, low, high), z) <= Dist(value, z)
  {
  }

  function Dist(a: real, b: real): (d: real)
    ensures d >= 0.0
    ensures d == a - b || d == b - a
  {
    if a >= b then a - b else b - a
  }
}
