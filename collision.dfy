/**
 * Axis-aligned box overlap around two centres, with strict inequalities:
 * boxes whose edges only touch do not collide.
 */
module Collision {
  import opened Positioning
  import opened Physics

  /** A positioned box: the oldest snapshot's `Body`. */
  datatype Body = Body(position: Position, size: Size)

  /** `objects_collide` over two bodies, term by term as the source writes it. */
  predicate BodiesCollide(a: Body, b: Body): (r: bool)
    ensures r ==> a.size.WHalf() + b.size.WHalf() > 0.0 && a.size.HHalf() + b.size.HHalf() > 0.0
  {
    a.position.x - a.size.WHalf() < b.position.x + b.size.WHalf()
    && a.position.x + a.size.WHalf() > b.position.x - b.size.WHalf()
    && a.position.y - a.size.HHalf() < b.position.y + b.size.HHalf()
    && a.size.HHalf() + a.position.y > b.position.y - b.size.HHalf()
  }

  /** `objects_collide` over two physics components: the boxes their positions and sizes span. */
  predicate ObjectsCollide(a: Physics, b: Physics): (r: bool)
    ensures r <==>
      Dist(a.position.x, b.position.x) < a.size.WHalf() + b.size.WHalf()
      && Dist(a.position.y, b.position.y) < a.size.HHalf() + b.size.HHalf()
  {
    BodiesCollide(Body(a.position, a.size), Body(b.position, b.size))
  }

  /** The two bodies overlap iff both centre distances are below the sums of the half extents. */
  lemma CollideIffCentreDistance(a: Body, b: Body)
    ensures BodiesCollide(a, b) <==>
      Dist(a.position.x, b.position.x) < a.size.WHalf() + b.size.WHalf()
      && Dist(a.position.y, b.position.y) < a.size.HHalf() + b.size.HHalf()
  {
  }

  /** The test does not depend on the order of its arguments. */
  lemma CollideSymmetric(a: Body, b: Body)
    ensures BodiesCollide(a, b) <==> BodiesCollide(b, a)
  {
  }

  /** A body whose right edge touches the other's left edge does not collide with it. */
  lemma TouchingXDoesNotCollide(a: Body, b: Body)
    requires a.position.x + a.size.WHalf() == b.position.x - b.size.WHalf()
    ensures !BodiesCollide(a, b) && !BodiesCollide(b, a)
  {
  }

  /** A body whose bottom edge touches the other's top edge does not collide with it. */
  lemma TouchingYDoesNotCollide(a: Body, b: Body)
    requires a.position.y + a.size.HHalf() == b.position.y - b.size.HHalf()
    ensures !BodiesCollide(a, b) && !BodiesCollide(b, a)
  {
  }

  /** A body collides with itself iff it has positive width and height. */
  lemma SelfCollision(a: Body)
    ensures BodiesCollide(a, a) <==> a.size.width > 0.0 && a.size.height > 0.0
  {
  }

  /** The same facts for physics components, the form the movement resolver uses. */
  lemma ObjectsCollideSymmetric(a: Physics, b: Physics)
    ensures ObjectsCollide(a, b) <==> ObjectsCollide(b, a)
  {
    CollideSymmetric(Body(a.position, a.size), Body(b.position, b.size));
  }
}
