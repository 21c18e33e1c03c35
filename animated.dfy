/**
 * The sprite-sheet texture of AnimatedTexture.cs.  A texture is cut into a
 * grid of HFrames x VFrames equal cells numbered row by row; an animation is
 * a range [Start, End) of cell numbers, and Animate steps the current frame
 * through it.
 *
 * The source advances the frame when a float timer passes the frame
 * duration 1 / Fps; the model receives the outcome of that test as the
 * boolean `elapsed`.
 */
module Animation {
  import opened Vectors
  import opened Textures

  /** AnimatedTexture.cs:3-15. */
  datatype Clip = Clip(start: int, end: int, fps: int)

  /** AnimatedTexture.cs:17-22. */
  datatype AnimationConfig = AnimationConfig(hFrames: int, vFrames: int, animations: map<string, Clip>)

  /** Rect.cs:3-42, with the integer corners GetRect produces. */
  datatype Rect = Rect(start: Vec2i, size: Vec2i)
  {
    function End(): Vec2i { Add(start, size) }
  }

  /** AnimatedTexture.cs:28: the frame a new animated texture shows. */
  const InitialFrame: int := 2

  /**
   * One Animate step, AnimatedTexture.cs:50-57: advance by one when the
   * frame time has elapsed, then fall back to the clip's start when the
   * frame left [start, end).
   */
  function Step(frame: int, clip: Clip, elapsed: bool): (next: int)
    ensures next == clip.start || next == frame + (if elapsed then 1 else 0)
    ensures next == clip.start || clip.start <= next < clip.end
    ensures clip.start < clip.end ==> clip.start <= next < clip.end
  {
    var advanced := if elapsed then frame + 1 else frame;
    if advanced >= clip.end || advanced < clip.start then clip.start else advanced
  }

  /** Inside the clip, a step moves to the next cell, or wraps to the start from the last one. */
  lemma StepInside(frame: int, clip: Clip)
    requires clip.start <= frame < clip.end
    ensures Step(frame, clip, false) == frame
    ensures Step(frame, clip, true) == if frame + 1 < clip.end then frame + 1 else clip.start
  {
  }

  /** `n` consecutive steps whose frame time has elapsed. */
  function Steps(frame: int, clip: Clip, n: nat): int
  {
    if n == 0 then frame else Step(Steps(frame, clip, n - 1), clip, true)
  }

  /** From the clip's start, the k-th elapsed step shows cell start + k, and end - start steps come back to start. */
  lemma {:induction false} StepsCycle(clip: Clip, k: nat)
    requires clip.start < clip.end && k <= clip.end - clip.start
    ensures Steps(clip.start, clip, k) == if k == clip.end - clip.start then clip.start else clip.start + k
  {
    if k > 0 {
      StepsCycle(clip, k - 1);
      StepInside(clip.start + k - 1, clip);
    }
  }

  /** The grid cell (column, row) of frame number `frame` in a sheet `hFrames` cells wide. */
  function Cell(frame: int, hFrames: int): Vec2i
    requires hFrames != 0
  {
    Vec2i(Rem(frame, hFrames), Quot(frame, hFrames))
  }

  /** Cells are numbered row by row: a non-negative frame has a column in [0, hFrames) and row * hFrames + column == frame. */
  lemma CellNumbering(frame: int, hFrames: int)
    requires frame >= 0 && hFrames > 0
    ensures 0 <= Cell(frame, hFrames).x < hFrames && Cell(frame, hFrames).y >= 0
    ensures Cell(frame, hFrames).y * hFrames + Cell(frame, hFrames).x == frame
  {
    QuotNonNegative(frame, hFrames);
    var q, r := frame / hFrames, frame % hFrames;
    assert Cell(frame, hFrames) == Vec2i(r, q);
    assert frame == q * hFrames + r;
    if q < 0 {
      MulLe(q, -1, hFrames);
    }
  }

  class AnimatedTexture {
    const texture: Texture2D
    const config: AnimationConfig
    const frameSize: Vec2i
    var frame: int

    /** AnimatedTexture.cs:32-37: the cell size is the texture size divided, as C# divides, by the grid. */
    constructor(texture: Texture2D, config: AnimationConfig)
      requires config.hFrames != 0 && config.vFrames != 0
      ensures this.texture == texture && this.config == config
      ensures frameSize == Div(texture.size, Vec2i(config.hFrames, config.vFrames))
      ensures frame == InitialFrame
    {
      this.texture := texture;
      this.config := config;
      frameSize := Div(texture.size, Vec2i(config.hFrames, config.vFrames));
      frame := InitialFrame;
    }

    /**
     * AnimatedTexture.cs:43-58.  An unknown animation name throws at the
     * dictionary lookup; the model reports it as `found == false` with the
     * frame unchanged.
     */
    method Animate(animationName: string, elapsed: bool) returns (found: bool)
      modifies this`frame
      ensures found <==> animationName in config.animations
      ensures found ==> frame == Step(old(frame), config.animations[animationName], elapsed)
      ensures !found ==> frame == old(frame)
    {
      if animationName !in config.animations {
        return false;
      }
      var clip := config.animations[animationName];
      if elapsed {
        frame := frame + 1;
      }
      if frame >= clip.end || frame < clip.start {
        frame := clip.start;
      }
      found := true;
    }

    /** AnimatedTexture.cs:60-66: the current frame's cell, scaled by the cell size. */
    function GetRect(): (r: Rect)
      requires config.hFrames != 0
      reads this
      ensures r.size == frameSize
    {
      Rect(Mul(Cell(frame, config.hFrames), frameSize), frameSize)
    }

    /** AnimatedTexture.cs:72: the width of one cell. */
    function GetWidth(): (w: int)
      reads this
      ensures w == frameSize.x
    {
      frameSize.W()
    }

    /** AnimatedTexture.cs:73: the height of one cell. */
    function GetHeight(): (h: int)
      reads this
      ensures h == frameSize.y
    {
      frameSize.H()
    }

    /** AnimatedTexture.cs:69: the texture the frames are cut from. */
    function GetTexture(): (t: Texture2D)
      ensures t == texture
    {
      texture
    }
  }

  /**
   * A texture as the renderer receives it: a plain GPU texture or an
   * animated one that wraps a GPU texture.
   */
  datatype TextureRef = Plain(texture: Texture2D) | Animated(animated: AnimatedTexture)
  {
    /** Texture.cs:45 and AnimatedTexture.cs:69: the GPU texture that holds the pixels. */
    function GetTexture(): (t: Texture2D)
      ensures Animated? ==> t == animated.texture
      ensures Plain? ==> t == texture
    {
      match this
      case Plain(t) => t
      case Animated(a) => a.GetTexture()
    }
  }

  /** a <= b scaled by a non-negative c. */
  lemma MulLe(a: int, b: int, c: int)
    requires a <= b && c >= 0
    ensures a * c <= b * c
  {
    assert b * c - a * c == (b - a) * c;
  }

  /** Dividing a non-negative size among n > 0 cells leaves n cells that fit in it. */
  lemma CellsFit(size: int, n: int)
    requires size >= 0 && n > 0
    ensures 0 <= Quot(size, n) && n * Quot(size, n) <= size
  {
    QuotNonNegative(size, n);
    var q := size / n;
    assert size == q * n + size % n;
    if q < 0 {
      MulLe(q, -1, n);
    }
    assert n * q == q * n;
  }

  /** The idx-th of n equal cells of a non-negative length lies within it. */
  lemma CellWithin(idx: int, n: int, size: int)
    requires 0 <= idx < n && size >= 0
    ensures 0 <= idx * Quot(size, n) && idx * Quot(size, n) + Quot(size, n) <= size
  {
    var w := Quot(size, n);
    CellsFit(size, n);
    MulLe(idx + 1, n, w);
    MulLe(0, idx, w);
    assert idx * w + w == (idx + 1) * w;
    assert n * w == w * n;
  }

  /** A frame below hFrames * vFrames lies in a row below vFrames. */
  lemma RowWithin(frame: int, hFrames: int, vFrames: int)
    requires 0 <= frame < hFrames * vFrames && hFrames > 0
    ensures 0 <= Cell(frame, hFrames).y < vFrames
  {
    var c := Cell(frame, hFrames);
    CellNumbering(frame, hFrames);
    if c.y >= vFrames {
      MulLe(vFrames, c.y, hFrames);
    }
  }

  /**
   * While the frame is a cell of the grid, GetRect lies inside the texture:
   * it starts at (column, row) times the cell size and ends within the
   * texture's width and height.
   */
  lemma RectInsideTexture(a: AnimatedTexture)
    requires a.config.hFrames > 0 && a.config.vFrames > 0
    requires a.frameSize == Div(a.texture.size, Vec2i(a.config.hFrames, a.config.vFrames))
    requires a.texture.size.x >= 0 && a.texture.size.y >= 0
    requires 0 <= a.frame < a.config.hFrames * a.config.vFrames
    ensures a.GetWidth() == a.GetRect().size.x && a.GetHeight() == a.GetRect().size.y
    ensures 0 <= a.GetRect().start.x && a.GetRect().End().x <= a.texture.size.x
    ensures 0 <= a.GetRect().start.y && a.GetRect().End().y <= a.texture.size.y
  {
    var c := Cell(a.frame, a.config.hFrames);
    CellNumbering(a.frame, a.config.hFrames);
    RowWithin(a.frame, a.config.hFrames, a.config.vFrames);
    CellWithin(c.x, a.config.hFrames, a.texture.size.x);
    CellWithin(c.y, a.config.vFrames, a.texture.size.y);
  }
}
