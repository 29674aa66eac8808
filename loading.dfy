/**
 * The fixed part of loading an entity store: the first desk row, which every
 * snapshot builds the same way, and runs of empty slots.
 */
module Loading {
  import opened Wrappers
  import opened Constants
  import opened Positioning
  import opened Physics
  import PhysicsDefs = Physics

  /** The desk of the first row with number `n`: at x 200, y 120 n, desk sized, standing still, facing nowhere. */
  function DeskPhysics(n: int): (p: Physics)
    ensures p.position == Position(200.0, n as real * 120.0) && p.size == Size(DESK_W, DESK_H)
    ensures p.speed == 0.0 && p.direction == None && !p.walking
  {
    PhysicsDefs.New(Position(200.0, n as real * 120.0), Size(DESK_W, DESK_H), 0.0, None)
  }

  /** The physics slots of desks `2 .. n - 1`, in order. */
  function DeskRowUpTo(n: int): (r: seq<Option<Physics>>)
    ensures |r| == if n <= 2 then 0 else n - 2
    ensures forall k :: 0 <= k < |r| ==> r[k] == Some(DeskPhysics(k + 2))
    decreases n
  {
    if n <= 2 then [] else DeskRowUpTo(n - 1) + [Some(DeskPhysics(n - 1))]
  }

  /** `n` empty slots. */
  function Vacant<T>(n: nat): (r: seq<Option<T>>)
    ensures |r| == n && forall k :: 0 <= k < n ==> r[k] == None
  {
    if n == 0 then [] else Vacant(n - 1) + [None]
  }

  /** The first desk row: desks 2 to 5. */
  function DeskRow(): seq<Option<Physics>> {
    DeskRowUpTo(6)
  }

  /** Four desks, at x 200 and y 240, 360, 480, 600, each 150 by 70, still and without direction. */
  lemma DeskRowLayout()
    ensures |DeskRow()| == 4
    ensures forall k :: 0 <= k < 4 ==>
      DeskRow()[k].Some? && DeskRow()[k].value.position == Position(200.0, 240.0 + 120.0 * k as real)
      && DeskRow()[k].value.size == Size(150.0, 70.0) && DeskRow()[k].value.speed == 0.0
      && DeskRow()[k].value.direction == None && !DeskRow()[k].value.walking
  {
  }
}
