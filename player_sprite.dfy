/**
 * The player's sprite table and the choice of the sprite to draw: an idle
 * sprite per facing, and seven walking frames per facing.
 */
module PlayerSprites {
  import opened Wrappers
  import opened Physics
  import opened TextureAtlas

  /** `index_from_direction`: the table row of a facing (the same numbering as `Direction::to_index`). */
  function IndexFromDirection(direction: Direction): (index: nat)
    ensures index < 4 && index == direction.ToIndex()
    ensures DirectionFromIndex(index) == direction.Name()
  {
    match direction
    case Up => 0
    case Right => 1
    case Down => 2
    case Left => 3
  }

  /** `direction_from_index`: the facing name of a table row; rows past the last read "right". */
  function DirectionFromIndex(index: nat): (name: string)
    ensures index < 4 ==> name == FromIndex(index).Name()
    ensures index >= 4 ==> name == "right"
  {
    match index
    case 0 => "up"
    case 1 => "right"
    case 2 => "down"
    case 3 => "left"
    case _ => "right"
  }

  /** The rows of the table and the facings are in one-to-one correspondence, and so are their names. */
  lemma IndexFromDirectionBijective()
    ensures forall a: Direction, b: Direction :: IndexFromDirection(a) == IndexFromDirection(b) ==> a == b
    ensures forall i: nat :: i < 4 ==> IndexFromDirection(FromIndex(i)) == i
    ensures forall i: nat, j: nat :: i < j < 4 ==> DirectionFromIndex(i) != DirectionFromIndex(j)
  {
    forall a: Direction, b: Direction | IndexFromDirection(a) == IndexFromDirection(b) ensures a == b {
      assert FromIndex(a.ToIndex()) == a && FromIndex(b.ToIndex()) == b;
    }
  }

  /**
   * `animation_sprite_index`: the walking frame for a frame count; each
   * sprite lasts ten frames and the cycle of seven repeats every seventy.
   */
  function AnimationSpriteIndex(frames: nat): (i: int)
    ensures i == (frames % 70) / 10
    ensures 0 <= i <= 6
  {
    var s := frames % 70;
    if s < 10 then 0
    else if s < 20 then 1
    else if s < 30 then 2
    else if s < 40 then 3
    else if s < 50 then 4
    else if s < 60 then 5
    else if s < 70 then 6
    else 6
  }

  /** The walking animation repeats every seventy frames. */
  lemma AnimationPeriodic(frames: nat)
    ensures AnimationSpriteIndex(frames + 70) == AnimationSpriteIndex(frames)
  {
    assert (frames + 70) % 70 == frames % 70;
  }

  /** Within a cycle the walking frame never goes back. */
  lemma AnimationMonotoneInCycle(f: nat, g: nat)
    requires f % 70 <= g % 70
    ensures AnimationSpriteIndex(f) <= AnimationSpriteIndex(g)
  {
  }

  /** The text of a one-digit number. */
  function Digit(d: nat): (s: string)
    requires d < 10
    ensures |s| == 1 && '0' <= s[0] <= '9'
  {
    [(48 + d) as char]
  }

  function IdleName(direction: nat): string
    requires direction < 10
  {
    "player-idle-" + Digit(direction)
  }

  function WalkName(directionName: string, animationFrame: nat): string
    requires animationFrame < 10
  {
    "player-" + directionName + "-" + Digit(animationFrame)
  }

  /** The atlas has every sprite the table needs. */
  predicate HasPlayerSprites(atlas: Atlas) {
    forall d: nat :: d < 4 ==>
      HasSprite(atlas, IdleName(d))
      && forall f: nat :: f < 7 ==> HasSprite(atlas, WalkName(DirectionFromIndex(d), f))
  }

  datatype PlayerSprite = PlayerSprite(idleSprites: seq<Sprite>, walkingSprites: seq<seq<Sprite>>, position: (real, real))

  /** The table has four idle sprites and four rows of seven walking frames. */
  predicate TableShape(ps: PlayerSprite) {
    |ps.idleSprites| == 4 && |ps.walkingSprites| == 4
    && forall d :: 0 <= d < 4 ==> |ps.walkingSprites[d]| == 7
  }

  /** Row `direction` of the walking table: the seven frames `player-<facing>-f` of the atlas. */
  predicate WalkingRow(row: seq<Sprite>, atlas: Atlas, direction: nat)
    requires HasPlayerSprites(atlas) && direction < 4
  {
    |row| == 7 && forall f: nat :: f < 7 ==> row[f] == CreateSprite(atlas, WalkName(DirectionFromIndex(direction), f))
  }

  /** The table `PlayerSprite::new` builds from `atlas`. */
  predicate BuiltFrom(ps: PlayerSprite, atlas: Atlas) {
    && HasPlayerSprites(atlas)
    && TableShape(ps)
    && (forall d: nat :: d < 4 ==> ps.idleSprites[d] == CreateSprite(atlas, IdleName(d)))
    && (forall d: nat :: d < 4 ==> WalkingRow(ps.walkingSprites[d], atlas, d))
  }

  /**
   * `PlayerSprite::new`: idle sprite `player-idle-d` for rows 0 to 3, and for
   * each row the walking frames `player-<facing>-f`, f from 0 to 6.
   */
  method NewPlayerSprite(atlas: Atlas) returns (ps: PlayerSprite)
    requires HasPlayerSprites(atlas)
    ensures BuiltFrom(ps, atlas)
    ensures ps.position == (500.0, 500.0)
  {
    var idleSprites: seq<Sprite> := [];
    var walkingSprites: seq<seq<Sprite>> := [];
    for direction := 0 to 4
      invariant |idleSprites| == direction
      invariant forall d: nat :: d < direction ==> idleSprites[d] == CreateSprite(atlas, IdleName(d))
    {
      idleSprites := idleSprites + [CreateSprite(atlas, IdleName(direction))];
    }
    for direction := 0 to 4
      invariant |walkingSprites| == direction
      invariant forall d: nat :: d < direction ==> WalkingRow(walkingSprites[d], atlas, d)
    {
      var directionSprites := WalkingFrames(atlas, direction);
      walkingSprites := walkingSprites + [directionSprites];
    }
    ps := PlayerSprite(idleSprites, walkingSprites, (500.0, 500.0));
  }

  /** The inner loop of `PlayerSprite::new`: the seven walking frames `player-<facing>-f` of one row. */
  method WalkingFrames(atlas: Atlas, direction: nat) returns (directionSprites: seq<Sprite>)
    requires HasPlayerSprites(atlas) && direction < 4
    ensures WalkingRow(directionSprites, atlas, direction)
  {
    var directionName := DirectionFromIndex(direction);
    directionSprites := [];
    for animationFrame := 0 to 7
      invariant |directionSprites| == animationFrame
      invariant forall f: nat :: f < animationFrame ==>
        directionSprites[f] == CreateSprite(atlas, WalkName(directionName, f))
    {
      directionSprites := directionSprites + [CreateSprite(atlas, WalkName(directionName, animationFrame))];
    }
  }

  /**
   * The sprite part of `PlayerSprite::draw`: the idle sprite of the facing
   * when standing, else the facing's walking frame for the frame count.
   * The source unwraps the direction, so it must be present.
   */
  function SelectSprite(ps: PlayerSprite, playerPhysics: Physics, frames: nat): (s: Sprite)
    requires playerPhysics.direction.Some? && TableShape(ps)
    ensures !playerPhysics.walking ==> s == ps.idleSprites[IndexFromDirection(playerPhysics.direction.value)]
    ensures playerPhysics.walking ==>
      s == ps.walkingSprites[IndexFromDirection(playerPhysics.direction.value)][AnimationSpriteIndex(frames)]
  {
    if !playerPhysics.walking then ps.idleSprites[IndexFromDirection(playerPhysics.direction.value)]
    else
      match playerPhysics.direction.value
      case Up => ps.walkingSprites[IndexFromDirection(Direction.Up)][AnimationSpriteIndex(frames)]
      case Right => ps.walkingSprites[IndexFromDirection(Direction.Right)][AnimationSpriteIndex(frames)]
      case Down => ps.walkingSprites[IndexFromDirection(Direction.Down)][AnimationSpriteIndex(frames)]
      case Left => ps.walkingSprites[IndexFromDirection(Direction.Left)][AnimationSpriteIndex(frames)]
  }

  /**
   * On the table built from an atlas, the sprite drawn is the atlas sprite
   * named after the facing: `player-idle-<row>` when standing, and
   * `player-<facing>-<frame>` when walking.
   */
  lemma SelectedSpriteName(ps: PlayerSprite, atlas: Atlas, playerPhysics: Physics, frames: nat)
    requires BuiltFrom(ps, atlas) && playerPhysics.direction.Some?
    ensures var d := playerPhysics.direction.value;
      SelectSprite(ps, playerPhysics, frames)
      == if playerPhysics.walking
         then CreateSprite(atlas, WalkName(d.Name(), AnimationSpriteIndex(frames)))
         else CreateSprite(atlas, IdleName(d.ToIndex()))
  {
    var d := playerPhysics.direction.value;
    var row := IndexFromDirection(d);
    assert DirectionFromIndex(row) == d.Name();
    if playerPhysics.walking {
      assert ps.walkingSprites[row][AnimationSpriteIndex(frames)]
          == CreateSprite(atlas, WalkName(DirectionFromIndex(row), AnimationSpriteIndex(frames)));
    }
  }
}
