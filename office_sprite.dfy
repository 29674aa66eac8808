/**
 * The office's desk sprites: two animation frames per desk type, and the
 * frame a desk shows for a frame count and its animation offset.
 */
module OfficeSprites {
  import opened TextureAtlas

  /** How many frames each desk animation frame lasts. */
  const FRAME_INTERVAL_DESK_ANIMATION: int := 120

  const I32_RANGE: int := 0x1_0000_0000
  const I32_MAX_PLUS_ONE: int := 0x8000_0000

  /** `frames as i32`: the low 32 bits of the count, read as a signed number. */
  function AsI32(n: nat): (r: int)
    ensures -I32_MAX_PLUS_ONE <= r < I32_MAX_PLUS_ONE
    ensures n < I32_MAX_PLUS_ONE ==> r == n
  {
    var m := n % I32_RANGE;
    if m < I32_MAX_PLUS_ONE then m else m - I32_RANGE
  }

  /** The cast keeps the count's residue modulo 2^32. */
  lemma AsI32Congruent(n: nat)
    ensures (n - AsI32(n)) % I32_RANGE == 0
  {
    var q := n / I32_RANGE;
    if n % I32_RANGE < I32_MAX_PLUS_ONE {
      assert n - AsI32(n) == q * I32_RANGE;
    } else {
      assert n - AsI32(n) == (q + 1) * I32_RANGE;
    }
  }

  /** Rust's `%` on `i32`: the remainder takes the sign of the dividend. */
  function RemI32(a: int, b: int): (r: int)
    requires b > 0
    ensures a >= 0 ==> r == a % b
    ensures a < 0 ==> -b < r <= 0 && r == -((-a) % b)
  {
    if a >= 0 then a % b else -((-a) % b)
  }

  /** A desk component: which desk sprite it uses and how late its animation runs. */
  datatype Desk = Desk(deskType: int, animationId: int)

  /**
   * `animation_sprite_index(frames, animation_id)`: frame 0 during the
   * first 120 + 10 * id frames of every 240, frame 1 for the rest. The frame
   * count is cast to `i32` first, as the source does.
   */
  function AnimationSpriteIndex(frames: nat, animationId: int): (i: nat)
    ensures i == 0 || i == 1
    ensures frames < I32_MAX_PLUS_ONE ==>
      (i == 0 <==> frames % (2 * FRAME_INTERVAL_DESK_ANIMATION) < FRAME_INTERVAL_DESK_ANIMATION + 10 * animationId)
  {
    var modifier := animationId * 10;
    if RemI32(AsI32(frames), FRAME_INTERVAL_DESK_ANIMATION * 2) < FRAME_INTERVAL_DESK_ANIMATION + modifier then 0
    else 1
  }

  /** Below the cast's wrap-around the animation repeats every 240 frames. */
  lemma AnimationPeriodic(frames: nat, animationId: int)
    requires frames + 240 < I32_MAX_PLUS_ONE
    ensures AnimationSpriteIndex(frames + 240, animationId) == AnimationSpriteIndex(frames, animationId)
  {
    assert (frames + 240) % 240 == frames % 240;
  }

  /** A later animation never shows frame 1 where an earlier one shows frame 0. */
  lemma LaterAnimationStaysLonger(frames: nat, earlier: int, later: int)
    requires earlier <= later
    ensures AnimationSpriteIndex(frames, later) <= AnimationSpriteIndex(frames, earlier)
  {
  }

  /** From id 12 on the threshold covers the whole cycle, wrapped counts included: frame 0 always. */
  lemma LongOffsetsNeverAnimate(frames: nat, animationId: int)
    requires animationId >= 12
    ensures AnimationSpriteIndex(frames, animationId) == 0
  {
    var r := RemI32(AsI32(frames), 240);
    assert r < 240;
  }

  /**
   * Past the wrap-around the cycle is no longer the one of the frame count:
   * at 2^31 frames the count reads as -2^31, whose remainder is -128, so a
   * desk with id 0 shows frame 0 although 2^31 mod 240 = 128 is in its
   * second half.
   */
  lemma AnimationAtWrap()
    ensures (I32_MAX_PLUS_ONE as nat) % 240 == 128
    ensures AnimationSpriteIndex(I32_MAX_PLUS_ONE as nat, 0) == 0
  {
    assert AsI32(I32_MAX_PLUS_ONE as nat) == -I32_MAX_PLUS_ONE;
    assert RemI32(-I32_MAX_PLUS_ONE, 240) == -128;
  }

  /** The atlas name of a desk animation frame: types 0 and 1 are "a" and "b". */
  function DeskSpriteName(deskType: int, frame: nat): string
    requires 0 <= deskType <= 1 && frame <= 1
  {
    "desk-type-" + (if deskType == 0 then "a" else "b") + "-" + (if frame == 0 then "0" else "1")
  }

  predicate HasDeskSprites(atlas: Atlas) {
    forall t, f: nat :: 0 <= t <= 1 && f <= 1 ==> HasSprite(atlas, DeskSpriteName(t, f))
  }

  datatype OfficeSprite = OfficeSprite(deskSprites: map<int, seq<Sprite>>, position: (real, real))

  /** The two animation frames of desk type `deskType`, as the atlas has them. */
  predicate DeskFrames(frames: seq<Sprite>, atlas: Atlas, deskType: int)
    requires HasDeskSprites(atlas) && 0 <= deskType <= 1
  {
    |frames| == 2 && forall f: nat :: f <= 1 ==> frames[f] == CreateSprite(atlas, DeskSpriteName(deskType, f))
  }

  /** The sprite table `OfficeSprite::new` builds from `atlas`: types 0 and 1, two frames each. */
  predicate BuiltFrom(os: OfficeSprite, atlas: Atlas) {
    && HasDeskSprites(atlas)
    && os.deskSprites.Keys == {0, 1}
    && DeskFrames(os.deskSprites[0], atlas, 0)
    && DeskFrames(os.deskSprites[1], atlas, 1)
  }

  /** `OfficeSprite::new`: one insertion per desk type. */
  method NewOfficeSprite(atlas: Atlas) returns (os: OfficeSprite)
    requires HasDeskSprites(atlas)
    ensures BuiltFrom(os, atlas)
    ensures os.position == (0.0, 0.0)
  {
    var deskSprites: map<int, seq<Sprite>> := map[];
    deskSprites := deskSprites[0 := [CreateSprite(atlas, DeskSpriteName(0, 0)), CreateSprite(atlas, DeskSpriteName(0, 1))]];
    deskSprites := deskSprites[1 := [CreateSprite(atlas, DeskSpriteName(1, 0)), CreateSprite(atlas, DeskSpriteName(1, 1))]];
    os := OfficeSprite(deskSprites, (0.0, 0.0));
  }

  /**
   * The sprite part of `draw_component`: the desk type's frame for the
   * frame count. The source unwraps the lookup, so the type must be present.
   */
  function DeskSprite(os: OfficeSprite, frames: nat, desk: Desk): (s: Sprite)
    requires desk.deskType in os.deskSprites && |os.deskSprites[desk.deskType]| >= 2
    ensures s in os.deskSprites[desk.deskType][..2]
  {
    os.deskSprites[desk.deskType][AnimationSpriteIndex(frames, desk.animationId)]
  }

  /**
   * On the table built from an atlas, exactly the desk types 0 and 1 can be
   * drawn, and a desk shows the atlas frame its animation index names.
   */
  lemma DrawnDeskSprite(os: OfficeSprite, atlas: Atlas, frames: nat, desk: Desk)
    requires BuiltFrom(os, atlas)
    ensures desk.deskType in os.deskSprites <==> desk.deskType == 0 || desk.deskType == 1
    ensures desk.deskType == 0 || desk.deskType == 1 ==>
      DeskSprite(os, frames, desk)
      == CreateSprite(atlas, DeskSpriteName(desk.deskType, AnimationSpriteIndex(frames, desk.animationId)))
  {
  }
}
