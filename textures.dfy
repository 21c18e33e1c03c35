/**
 * The GPU textures of Graphics/Texture2D.cs and the colours of
 * Graphics/Color.cs, as far as the renderer, the animated texture and the
 * content caches need them: a texture's identity, its size and its disposal.
 * Uploading pixels to the GPU is not modelled; a texture's GL handle is
 * represented by the object itself.
 */
module Textures {
  import opened Vectors

  /** Graphics/Color.cs:3-19: four channels; alpha defaults to 1. Floats are modelled as reals. */
  datatype Color = Color(r: real, g: real, b: real, a: real)

  /** Graphics/Color.cs:7. */
  const White: Color := Color(1.0, 1.0, 1.0, 1.0)

  /** Where a texture's pixels came from. */
  datatype Origin = ImageFile(path: string) | SolidColor(color: Color)

  class Texture2D {
    const origin: Origin
    var size: Vec2i
    var disposed: bool
    /** The GL.DeleteTexture calls made for this texture. */
    ghost var deletions: nat

    /** The texture is deleted from the GPU exactly when it is disposed, and then only once. */
    ghost predicate Valid()
      reads this
    {
      deletions == if disposed then 1 else 0
    }

    /** Graphics/Texture2D.cs:13-38: load an image file; its size is whatever the file holds. */
    constructor Load(path: string)
      ensures origin == ImageFile(path) && !disposed && Valid()
    {
      origin := ImageFile(path);
      size := *;
      disposed := false;
      deletions := 0;
    }

    /** Graphics/Texture2D.cs:40-45: a 1x1 texture of one colour. */
    constructor Solid(color: Color)
      ensures origin == SolidColor(color) && size == Vec2i(1, 1) && !disposed && Valid()
    {
      origin := SolidColor(color);
      size := Vec2i(1, 1);
      disposed := false;
      deletions := 0;
    }

    /** Graphics/Texture2D.cs:58-71: the texture is deleted on the first call; later calls do nothing. */
    method Dispose()
      requires Valid()
      modifies this
      ensures Valid() && disposed && size == old(size)
      ensures deletions == 1 && (old(disposed) ==> deletions == old(deletions))
    {
      if disposed {
        return;
      }
      deletions := deletions + 1;
      disposed := true;
    }
  }
}
