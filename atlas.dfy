/**
 * The texture atlas: named frames cut out of one atlas image, and the
 * sprite made from a frame looked up by name.
 */
module TextureAtlas {
  /** A rectangle in atlas pixels, as the atlas file stores it. */
  datatype JsonRect = JsonRect(x: int, y: int, w: int, h: int)

  /** One named frame of the atlas. */
  datatype SpriteData = SpriteData(filename: string, frame: JsonRect)

  /** The size of the atlas image. */
  datatype AtlasSize = AtlasSize(w: int, h: int)

  datatype Meta = Meta(size: AtlasSize)

  /** A parsed atlas file; parsing it is not part of this model. */
  datatype Atlas = Atlas(frames: seq<SpriteData>, meta: Meta)

  /** A rectangle in screen units. */
  datatype Rect = Rect(x: real, y: real, w: real, h: real)

  /**
   * A sprite: the part of the atlas it shows, and its size in pixels. The
   * framework turns `source` into a fraction of `reference`; that arithmetic
   * is not part of this model, so both rectangles are kept as given.
   */
  datatype Sprite = Sprite(source: Rect, reference: Rect, width: real, height: real)

  /** Some frame of the atlas has this name. */
  predicate HasSprite(atlas: Atlas, spriteName: string) {
    exists i :: 0 <= i < |atlas.frames| && atlas.frames[i].filename == spriteName
  }

  /** The position of the first frame with this name. */
  function FirstFrame(frames: seq<SpriteData>, spriteName: string): (i: nat)
    requires exists i :: 0 <= i < |frames| && frames[i].filename == spriteName
    ensures i < |frames| && frames[i].filename == spriteName
    ensures forall j :: 0 <= j < i ==> frames[j].filename != spriteName
    decreases |frames|
  {
    if frames[0].filename == spriteName then 0
    else
      assert exists i :: 0 <= i < |frames[1..]| && frames[1..][i].filename == spriteName by {
        var i :| 0 <= i < |frames| && frames[i].filename == spriteName;
        assert frames[1..][i - 1] == frames[i];
      }
      1 + FirstFrame(frames[1..], spriteName)
  }

  /**
   * `Atlas::create_sprite`: the sprite of the first frame named
   * `spriteName`, as large as that frame, cut against the whole atlas. A
   * name the atlas lacks makes the source panic, so it is a precondition.
   */
  function CreateSprite(atlas: Atlas, spriteName: string): (s: Sprite)
    requires HasSprite(atlas, spriteName)
    ensures var d := atlas.frames[FirstFrame(atlas.frames, spriteName)];
      && s.width == d.frame.w as real && s.height == d.frame.h as real
      && s.source == Rect(d.frame.x as real, d.frame.y as real, d.frame.w as real, d.frame.h as real)
    ensures s.reference == Rect(0.0, 0.0, atlas.meta.size.w as real, atlas.meta.size.h as real)
  {
    var width := atlas.meta.size.w as real;
    var height := atlas.meta.size.h as real;
    var atlasRect := Rect(0.0, 0.0, width, height);
    var spriteData := atlas.frames[FirstFrame(atlas.frames, spriteName)];
    Sprite(Rect(spriteData.frame.x as real, spriteData.frame.y as real,
                spriteData.frame.w as real, spriteData.frame.h as real),
           atlasRect, spriteData.frame.w as real, spriteData.frame.h as real)
  }

  /** Frames after the first one with a name never matter: the lookup stops at the first match. */
  lemma LaterDuplicatesIgnored(atlas: Atlas, spriteName: string, extra: seq<SpriteData>)
    requires HasSprite(atlas, spriteName)
    ensures HasSprite(atlas.(frames := atlas.frames + extra), spriteName)
    ensures CreateSprite(atlas.(frames := atlas.frames + extra), spriteName) == CreateSprite(atlas, spriteName)
  {
    var i :| 0 <= i < |atlas.frames| && atlas.frames[i].filename == spriteName;
    var all := atlas.frames + extra;
    assert all[i] == atlas.frames[i];
    FirstFrameOfPrefix(atlas.frames, extra, spriteName);
  }

  /** The first match in a sequence is the first match in any extension of it. */
  lemma {:induction false} FirstFrameOfPrefix(frames: seq<SpriteData>, extra: seq<SpriteData>, spriteName: string)
    requires exists i :: 0 <= i < |frames| && frames[i].filename == spriteName
    ensures exists i :: 0 <= i < |frames + extra| && (frames + extra)[i].filename == spriteName
    ensures FirstFrame(frames + extra, spriteName) == FirstFrame(frames, spriteName)
    decreases |frames|
  {
    var i :| 0 <= i < |frames| && frames[i].filename == spriteName;
    assert (frames + extra)[i] == frames[i];
    if frames[0].filename != spriteName {
      assert frames[1..][i - 1] == frames[i];
      assert (frames + extra)[1..] == frames[1..] + extra;
      FirstFrameOfPrefix(frames[1..], extra, spriteName);
    }
  }
}
