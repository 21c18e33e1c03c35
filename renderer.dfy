/**
 * The batching renderer of Renderer.cs.  Shapes are not drawn one by one:
 * each shape appends its indices and vertices to the current batch, and a
 * batch is sent to the GPU (one draw call) only when a shape needs a
 * different vertex format, texture or shader, or when the frame ends.
 *
 * Every vertex is 8 floats (position, texture coordinate, colour).  Float
 * arithmetic is modelled with reals; the corner positions and texture
 * coordinates of DrawTexture come from a transform and a source rectangle
 * whose float maths is not modelled, so the caller passes the four corners.
 * GL calls that upload buffers are not modelled; each GL.DrawElements is
 * recorded in a ghost trace of draw calls.
 */
module Rendering {
  import opened Shaders
  import opened Textures
  import opened Animation

  /** Renderer.cs:6-12. */
  datatype VertexFormat = PosUvColor | PosUv | PosColor | Pos

  /** The primitive types the renderer uses. */
  datatype PrimitiveType = Triangles | Lines

  /** Renderer.cs:220-227: the floats per PosUvColor vertex. */
  const FloatsPerVertex: nat := 8

  /** A 2D point or size in floats. */
  datatype Point = Point(x: real, y: real)

  /** One corner of a shape: its position and texture coordinate. */
  datatype Corner = Corner(x: real, y: real, u: real, v: real)

  /** The 8 floats AddVertex receives for a corner drawn in colour `c`. */
  function VertexOf(corner: Corner, c: Color): (floats: seq<real>)
    ensures |floats| == FloatsPerVertex
  {
    [corner.x, corner.y, corner.u, corner.v, c.r, c.g, c.b, c.a]
  }

  /** The floats of several corners, in order. */
  function VerticesOf(corners: seq<Corner>, c: Color): (floats: seq<real>)
    ensures |floats| == FloatsPerVertex * |corners|
  {
    if corners == [] then [] else VerticesOf(corners[..|corners| - 1], c) + VertexOf(corners[|corners| - 1], c)
  }

  /** Renderer.cs:41-42: the top index after adding `index`. */
  function Raise(top: nat, index: nat): (r: nat)
    ensures r >= top && (index < r || index == top)
  {
    if index > top then index + 1 else top
  }

  /** The two triangles of a quad whose corners are vertices t .. t+3 (Renderer.cs:290-295). */
  function QuadIndices(t: nat): seq<nat>
  {
    [t, t + 1, t + 2, t, t + 2, t + 3]
  }

  /** The two ends of a line whose vertices are t and t+1 (Renderer.cs:328-329). */
  function LineIndices(t: nat): seq<nat>
  {
    [t, t + 1]
  }

  /**
   * A quad added at top t raises the top to t + 4 and a line to t + 2, and
   * every index they add is below the new top.
   */
  lemma ShapeTops(t: nat)
    ensures Raise(Raise(Raise(Raise(Raise(Raise(t, t), t + 1), t + 2), t), t + 2), t + 3) == t + 4
    ensures Raise(Raise(t, t), t + 1) == t + 2
    ensures forall k :: 0 <= k < 6 ==> QuadIndices(t)[k] < t + 4
    ensures forall k :: 0 <= k < 2 ==> LineIndices(t)[k] < t + 2
  {
  }

  /**
   * The top is raised only by an index above it, not by one equal to it:
   * adding index t to a batch whose top is t leaves the top at t, so the top
   * is then not above every index.  Every shape starts exactly this way
   * (Renderer.cs:290, 328), and its next index, start + 1, raises the top, so
   * each shape still ends with the top above all its indices (ShapeTops).
   */
  lemma RaiseAtTop(t: nat)
    ensures Raise(t, t) == t
  {
  }

  /** One GL.DrawElements call: what the GPU was given. */
  datatype DrawCall = DrawCall(primitiveType: PrimitiveType, shader: Shader, texture: Texture2D,
                               vertices: seq<real>, indices: seq<nat>, attributes: seq<int>)
  {
    /** Every index names a vertex of the uploaded buffer. */
    ghost predicate InBounds()
    {
      forall k :: 0 <= k < |indices| ==> FloatsPerVertex * (indices[k] + 1) <= |vertices|
    }
  }

  /**
   * Renderer.cs:145-146: the uniform locations FlushBatch sends the view and
   * projection matrices to, and the batch shader's uniform table afterwards.
   */
  function SentMatrices(table: map<string, int>): (r: (seq<int>, map<string, int>))
    ensures "view" in r.1 && "projection" in r.1 && r.0 == [r.1["view"], r.1["projection"]]
    ensures r.1.Keys == table.Keys + {"view", "projection"}
    ensures forall name :: name in table ==> r.1[name] == table[name]
  {
    var view := Locate(table, "view");
    var projection := Locate(view.table, "projection");
    ([view.location, projection.location], projection.table)
  }

  /** The errors sending the matrices writes: one for each of the two names the table lacks. */
  function MatrixErrors(table: map<string, int>): seq<ShaderError>
  {
    (if "view" in table then [] else [UnknownUniform("view")]) +
    (if "projection" in table then [] else [UnknownUniform("projection")])
  }

  /**
   * Renderer.cs:237-252: the attribute locations of the PosUvColor layout
   * (position, texture coordinate, colour, in that order) and the current
   * shader's attribute table afterwards.
   */
  function Layout(table: map<string, int>): (r: (seq<int>, map<string, int>))
    ensures "in_Position" in r.1 && "in_Uv" in r.1 && "in_Color" in r.1
    ensures r.0 == [r.1["in_Position"], r.1["in_Uv"], r.1["in_Color"]]
    ensures r.1.Keys == table.Keys + {"in_Position", "in_Uv", "in_Color"}
    ensures forall name :: name in table ==> r.1[name] == table[name]
  {
    var position := Locate(table, "in_Position");
    var uv := Locate(position.table, "in_Uv");
    var color := Locate(uv.table, "in_Color");
    ([position.location, uv.location, color.location], color.table)
  }

  /** The errors setting up the layout writes: one for each of the three names the table lacks. */
  function LayoutErrors(table: map<string, int>): seq<ShaderError>
  {
    (if "in_Position" in table then [] else [UnknownAttribute("in_Position")]) +
    (if "in_Uv" in table then [] else [UnknownAttribute("in_Uv")]) +
    (if "in_Color" in table then [] else [UnknownAttribute("in_Color")])
  }

  /**
   * What a flush does to the batch's shader bs and the current shader cs,
   * which may be the same object: bs receives the two matrices, cs is asked
   * for the three layout locations, and each writes an error per unknown name.
   */
  twostate predicate ShadersFlushed(bs: Shader, cs: Shader)
    reads bs, cs
  {
    bs.uniforms == SentMatrices(old(bs.uniforms)).1 &&
    bs.sent == old(bs.sent) + SentMatrices(old(bs.uniforms)).0 &&
    cs.attributes == Layout(old(cs.attributes)).1 &&
    if bs == cs then
      bs.errors == old(bs.errors) + MatrixErrors(old(bs.uniforms)) + LayoutErrors(old(cs.attributes))
    else
      bs.errors == old(bs.errors) + MatrixErrors(old(bs.uniforms)) &&
      cs.errors == old(cs.errors) + LayoutErrors(old(cs.attributes))
  }

  /** Renderer.cs:16-52. */
  class BatchRequest {
    var invalid: bool
    var primitiveType: PrimitiveType
    var format: VertexFormat
    var shader: Shader
    var texture: Texture2D
    var vertices: seq<real>
    var indices: seq<nat>
    var topIndex: nat

    /** The top index is the number of vertices, and every index is below it. */
    ghost predicate Indexed()
      reads this
    {
      |vertices| == FloatsPerVertex * topIndex &&
      forall k :: 0 <= k < |indices| ==> indices[k] < topIndex
    }

    /** Renderer.cs:28-35 with the object initialiser of its callers. */
    constructor(format: VertexFormat, primitiveType: PrimitiveType, shader: Shader, texture: Texture2D, invalid: bool)
      ensures this.format == format && this.primitiveType == primitiveType
      ensures this.shader == shader && this.texture == texture && this.invalid == invalid
      ensures vertices == [] && indices == [] && topIndex == 0 && Indexed()
    {
      this.format := format;
      this.primitiveType := primitiveType;
      this.shader := shader;
      this.texture := texture;
      this.invalid := invalid;
      vertices := [];
      indices := [];
      topIndex := 0;
    }

    /** Renderer.cs:37. */
    function GetTopIndex(): (top: nat)
      reads this
      ensures Indexed() ==> |vertices| == FloatsPerVertex * top
      ensures Indexed() ==> forall k :: 0 <= k < |indices| ==> indices[k] < top
    {
      topIndex
    }

    /** Renderer.cs:39-44: append start + index; raise the top above it when it exceeds the top. */
    method AddIndex(start: nat, index: nat)
      modifies this`indices, this`topIndex
      ensures indices == old(indices) + [start + index]
      ensures topIndex == Raise(old(topIndex), start + index)
    {
      if start + index > topIndex {
        topIndex := start + index + 1;
      }
      indices := indices + [start + index];
    }

    /** Renderer.cs:46-51: append the floats of one vertex, one by one. */
    method AddVertex(vertex: seq<real>)
      modifies this`vertices
      ensures vertices == old(vertices) + vertex
    {
      for k := 0 to |vertex|
        invariant vertices == old(vertices) + vertex[..k]
      {
        vertices := vertices + [vertex[k]];
      }
    }
  }

  class Renderer {
    var disposed: bool
    var currentColor: Color
    const defaultShader: Shader
    const colorTexture: Texture2D
    var currentShader: Shader
    var batch: BatchRequest
    var drawCalls: int
    var prevDrawCalls: int
    /** The GL.DrawElements calls made so far. */
    ghost var submitted: seq<DrawCall>

    /** The batch is indexed and every draw call only names vertices it uploaded. */
    ghost predicate Valid()
      reads this, batch
    {
      batch.Indexed() &&
      forall k :: 0 <= k < |submitted| ==> submitted[k].InBounds()
    }

    /**
     * The default shader and the colour texture are disposed, and deleted
     * from the GPU once, exactly when the renderer has been disposed.  No
     * drawing method has their disposal state in its frame.
     */
    ghost predicate Owned()
      reads this, defaultShader, colorTexture
    {
      defaultShader.Valid() && colorTexture.Valid() &&
      defaultShader.disposed == disposed && colorTexture.disposed == disposed
    }

    /**
     * Renderer.cs:56-88: a new renderer draws in white with the default
     * shader and starts with an invalid (empty) batch.  The default shader's
     * active attributes and uniforms, which linking it would report, are
     * inputs.
     */
    constructor(defaultAttributes: map<string, int>, defaultUniforms: map<string, int>)
      ensures Valid() && Owned() && batch.invalid && fresh(batch) && fresh(defaultShader) && fresh(colorTexture)
      ensures batch.shader == defaultShader && batch.texture == colorTexture && batch.Indexed()
      ensures currentShader == defaultShader && defaultShader.vertPath == "default.vert" && defaultShader.fragPath == "default.frag"
      ensures defaultShader.attributes == defaultAttributes && defaultShader.uniforms == defaultUniforms
      ensures colorTexture.origin == SolidColor(White) && currentColor == White
      ensures drawCalls == 0 && prevDrawCalls == 0 && submitted == [] && !disposed
    {
      disposed := false;
      currentColor := White;
      var shader := new Shader("default.vert", "default.frag", defaultAttributes, defaultUniforms);
      var texture := new Texture2D.Solid(White);
      defaultShader := shader;
      colorTexture := texture;
      currentShader := shader;
      batch := new BatchRequest(PosUvColor, Triangles, shader, texture, true);
      drawCalls := 0;
      prevDrawCalls := 0;
      submitted := [];
    }

    /** Renderer.cs:118: the draw calls of the last finished frame. */
    function GetDrawCalls(): (n: int)
      reads this
      ensures n == prevDrawCalls
    {
      prevDrawCalls
    }

    /** Renderer.cs:164-165: a null texture stands for the 1x1 colour texture. */
    function TextureFor(textureOrNull: Texture2D?): (t: Texture2D)
      ensures textureOrNull != null ==> t == textureOrNull
      ensures textureOrNull == null ==> t == colorTexture
    {
      if textureOrNull == null then colorTexture else textureOrNull
    }

    /** The current batch can take a shape of this format and texture. */
    predicate Continues(format: VertexFormat, texture: Texture2D)
      reads this, batch
    {
      !batch.invalid && batch.format == format && batch.texture == texture && batch.shader == currentShader
    }

    /** Renderer.cs:170-185: a request for this format and texture flushes the current batch. */
    predicate Flushes(format: VertexFormat, texture: Texture2D)
      reads this, batch
    {
      !batch.invalid && !Continues(format, texture)
    }

    /** The draw call a flush would make now: the batch, with the current shader's layout locations. */
    ghost function PendingDraw(): DrawCall
      reads this, batch, currentShader
    {
      DrawCall(batch.primitiveType, batch.shader, batch.texture, batch.vertices, batch.indices,
               Layout(currentShader.attributes).0)
    }

    /**
     * The effect of a possible flush on the trace and the shaders: with
     * `flush`, draw call d is appended and the batch's shader bs and the
     * current shader cs change as FlushBatch changes them; without, neither the
     * trace nor the two shaders change.
     */
    twostate predicate Flushed(d: DrawCall, bs: Shader, cs: Shader, flush: bool)
      reads this, bs, cs
    {
      if flush then submitted == old(submitted) + [d] && ShadersFlushed(bs, cs)
      else submitted == old(submitted) && unchanged(bs, cs)
    }

    /**
     * Renderer.cs:138-158: an invalid batch is left alone.  A valid one is
     * marked invalid and drawn: its shader receives the view and projection
     * matrices, the vertex layout is set up with the attribute locations of
     * the CURRENT shader (Renderer.cs:237-252), and one draw call is counted.
     */
    method FlushBatch()
      requires Valid()
      modifies this`drawCalls, this`submitted, batch`invalid
      modifies batch.shader`uniforms, batch.shader`errors, batch.shader`sent
      modifies currentShader`attributes, currentShader`errors
      ensures Valid() && batch.invalid
      ensures drawCalls == old(drawCalls) + (if old(batch.invalid) then 0 else 1)
      ensures Flushed(old(PendingDraw()), batch.shader, currentShader, !old(batch.invalid))
    {
      if batch.invalid {
        return;
      }
      batch.invalid := true;
      SendMatrices(batch.shader);
      var attributes := SetUpVertexFormat();
      ghost var d := DrawCall(batch.primitiveType, batch.shader, batch.texture, batch.vertices, batch.indices, attributes);
      IndexedDrawInBounds(d.primitiveType, d.shader, d.texture, d.vertices, d.indices, batch.topIndex, d.attributes);
      AppendInBounds(submitted, d);
      submitted := submitted + [d];
      drawCalls := drawCalls + 1;
    }

    /** Renderer.cs:144-146: the batch's shader receives the view and projection matrices. */
    static method SendMatrices(shader: Shader)
      modifies shader`uniforms, shader`errors, shader`sent
      ensures shader.uniforms == SentMatrices(old(shader.uniforms)).1
      ensures shader.sent == old(shader.sent) + SentMatrices(old(shader.uniforms)).0
      ensures shader.errors == old(shader.errors) + MatrixErrors(old(shader.uniforms))
    {
      shader.Send("view");
      shader.Send("projection");
    }

    /**
     * Renderer.cs:229-262: the PosUvColor layout, with the attribute
     * locations of the current shader.
     */
    method SetUpVertexFormat() returns (attributes: seq<int>)
      modifies currentShader`attributes, currentShader`errors
      ensures (attributes, currentShader.attributes) == Layout(old(currentShader.attributes))
      ensures currentShader.errors == old(currentShader.errors) + LayoutErrors(old(currentShader.attributes))
    {
      var position := currentShader.GetAttributeLocation("in_Position");
      var uv := currentShader.GetAttributeLocation("in_Uv");
      var color := currentShader.GetAttributeLocation("in_Color");
      attributes := [position, uv, color];
    }

    /**
     * Renderer.cs:160-198.  A valid batch of the same format, texture and
     * shader is reused, whatever primitive type it was opened with.  Otherwise
     * a valid batch is flushed first, and a new batch is opened for the
     * request.
     */
    method RequestBatch(format: VertexFormat, primitiveType: PrimitiveType, textureOrNull: Texture2D?)
      returns (b: BatchRequest)
      requires Valid()
      modifies this`batch, this`drawCalls, this`submitted, batch`invalid
      modifies batch.shader`uniforms, batch.shader`errors, batch.shader`sent
      modifies currentShader`attributes, currentShader`errors
      ensures Valid() && b == batch && !b.invalid
      ensures b.format == format && b.texture == TextureFor(textureOrNull) && b.shader == currentShader
      ensures old(Continues(format, TextureFor(textureOrNull))) ==> b == old(batch) && unchanged(b)
      ensures !old(Continues(format, TextureFor(textureOrNull))) ==>
        fresh(b) && b.primitiveType == primitiveType && b.vertices == [] && b.indices == [] && b.topIndex == 0
      ensures var flush := old(Flushes(format, TextureFor(textureOrNull)));
        drawCalls == old(drawCalls) + (if flush then 1 else 0) &&
        Flushed(old(PendingDraw()), old(batch.shader), old(currentShader), flush)
    {
      var texture := TextureFor(textureOrNull);
      var flush := false;
      var newBatch := false;
      if batch.format != format || batch.texture != texture || batch.shader != currentShader {
        flush := true;
        newBatch := true;
      }
      if batch.invalid {
        flush := false;
        newBatch := true;
      }
      assert flush == Flushes(format, texture) && newBatch == !Continues(format, texture);
      ghost var d, bs := PendingDraw(), batch.shader;
      if flush {
        FlushBatch();
      }
      assert Flushed(d, bs, currentShader, flush);
      if newBatch {
        batch := new BatchRequest(format, primitiveType, currentShader, texture, false);
      }
      b := batch;
    }

    /** Renderer.cs:131-136: end the frame: flush, publish the frame's draw calls and start counting again. */
    method PrepareNextFrame()
      requires Valid()
      modifies this`drawCalls, this`prevDrawCalls, this`submitted, batch`invalid
      modifies batch.shader`uniforms, batch.shader`errors, batch.shader`sent
      modifies currentShader`attributes, currentShader`errors
      ensures Valid() && batch.invalid
      ensures prevDrawCalls == old(drawCalls) + (if old(batch.invalid) then 0 else 1) && drawCalls == 0
      ensures Flushed(old(PendingDraw()), batch.shader, currentShader, !old(batch.invalid))
    {
      FlushBatch();
      prevDrawCalls := drawCalls;
      drawCalls := 0;
    }

    /** Renderer.cs:282. */
    method SetColor(color: Color)
      modifies this`currentColor
      ensures currentColor == color
    {
      currentColor := color;
    }

    /** Renderer.cs:283. */
    function GetColor(): (c: Color)
      reads this
      ensures c == currentColor
    {
      currentColor
    }

    /** Renderer.cs:426-429: a null shader selects the default shader. */
    method SetShader(shaderOrNull: Shader?)
      modifies this`currentShader
      ensures currentShader == if shaderOrNull == null then defaultShader else shaderOrNull
    {
      currentShader := if shaderOrNull == null then defaultShader else shaderOrNull;
    }

    /** Append a quad with corners top-left, top-right, bottom-right, bottom-left to batch b. */
    method AddQuad(b: BatchRequest, corners: seq<Corner>)
      requires |corners| == 4 && b.Indexed()
      modifies b`indices, b`topIndex, b`vertices
      ensures b.Indexed()
      ensures b.indices == old(b.indices) + QuadIndices(old(b.topIndex)) && b.topIndex == old(b.topIndex) + 4
      ensures b.vertices == old(b.vertices) + VerticesOf(corners, currentColor)
    {
      AddQuadIndices(b);
      AddCorners(b, corners);
      ShapeTops(old(b.topIndex));
    }

    /** Renderer.cs:288-295: the six indices of a quad, from the batch's top index. */
    static method AddQuadIndices(b: BatchRequest)
      modifies b`indices, b`topIndex
      ensures b.indices == old(b.indices) + QuadIndices(old(b.topIndex)) && b.topIndex == old(b.topIndex) + 4
    {
      var indexStart := b.GetTopIndex();
      ShapeTops(indexStart);
      b.AddIndex(indexStart, 0);
      b.AddIndex(indexStart, 1);
      b.AddIndex(indexStart, 2);
      b.AddIndex(indexStart, 0);
      b.AddIndex(indexStart, 2);
      b.AddIndex(indexStart, 3);
    }

    /** One AddVertex per corner, in the current colour. */
    method AddCorners(b: BatchRequest, corners: seq<Corner>)
      modifies b`vertices
      ensures b.vertices == old(b.vertices) + VerticesOf(corners, currentColor)
    {
      for k := 0 to |corners|
        invariant b.vertices == old(b.vertices) + VerticesOf(corners[..k], currentColor)
      {
        b.AddVertex(VertexOf(corners[k], currentColor));
        assert corners[..k + 1][..k] == corners[..k];
      }
      assert corners[..|corners|] == corners;
    }

    /** The corners Rectangle draws for `pos` and `size` (Renderer.cs:297-320). */
    static function RectangleCorners(pos: Point, size: Point): seq<Corner>
    {
      [Corner(pos.x, pos.y, 0.0, 0.0), Corner(pos.x + size.x, pos.y, 1.0, 0.0),
       Corner(pos.x + size.x, pos.y + size.y, 1.0, 1.0), Corner(pos.x, pos.y + size.y, 0.0, 1.0)]
    }

    /**
     * Renderer.cs:285-321: a filled rectangle in the current colour: six
     * indices and four vertices appended to a batch of the colour texture,
     * which either continues the current batch (whatever its primitive type)
     * or is a new triangle batch started at 0, after a flush of a valid one.
     */
    method Rectangle(pos: Point, size: Point)
      requires Valid()
      modifies this`batch, this`drawCalls, this`submitted, batch`invalid
      modifies batch`indices, batch`topIndex, batch`vertices
      modifies batch.shader`uniforms, batch.shader`errors, batch.shader`sent
      modifies currentShader`attributes, currentShader`errors
      ensures Valid() && !batch.invalid && batch.format == PosUvColor
      ensures batch.texture == colorTexture && batch.shader == currentShader
      ensures if old(Continues(PosUvColor, colorTexture))
        then batch == old(batch) && batch.primitiveType == old(batch.primitiveType)
        else fresh(batch) && batch.primitiveType == Triangles
      ensures var reused := old(Continues(PosUvColor, colorTexture));
        var t := if reused then old(batch.topIndex) else 0;
        batch.indices == (if reused then old(batch.indices) else []) + QuadIndices(t) &&
        batch.topIndex == t + 4 &&
        batch.vertices == (if reused then old(batch.vertices) else []) + VerticesOf(RectangleCorners(pos, size), currentColor)
      ensures var flush := old(Flushes(PosUvColor, colorTexture));
        drawCalls == old(drawCalls) + (if flush then 1 else 0) &&
        Flushed(old(PendingDraw()), old(batch.shader), old(currentShader), flush)
    {
      var b := RequestBatch(PosUvColor, Triangles, null);
      AddQuad(b, RectangleCorners(pos, size));
    }

    /**
     * Renderer.cs:323-343: a line in the current colour: two indices and two
     * vertices.  A current batch of the same texture is continued even when
     * it holds triangles; otherwise a new line batch starts at 0.
     */
    method Line(start: Point, end: Point)
      requires Valid()
      modifies this`batch, this`drawCalls, this`submitted, batch`invalid
      modifies batch`indices, batch`topIndex, batch`vertices
      modifies batch.shader`uniforms, batch.shader`errors, batch.shader`sent
      modifies currentShader`attributes, currentShader`errors
      ensures Valid() && !batch.invalid && batch.format == PosUvColor
      ensures batch.texture == colorTexture && batch.shader == currentShader
      ensures if old(Continues(PosUvColor, colorTexture))
        then batch == old(batch) && batch.primitiveType == old(batch.primitiveType)
        else fresh(batch) && batch.primitiveType == Lines
      ensures var reused := old(Continues(PosUvColor, colorTexture));
        var t := if reused then old(batch.topIndex) else 0;
        batch.indices == (if reused then old(batch.indices) else []) + LineIndices(t) &&
        batch.topIndex == t + 2 &&
        batch.vertices == (if reused then old(batch.vertices) else []) +
          VerticesOf([Corner(start.x, start.y, 0.0, 0.0), Corner(end.x, end.y, 0.0, 0.0)], currentColor)
      ensures var flush := old(Flushes(PosUvColor, colorTexture));
        drawCalls == old(drawCalls) + (if flush then 1 else 0) &&
        Flushed(old(PendingDraw()), old(batch.shader), old(currentShader), flush)
    {
      var b := RequestBatch(PosUvColor, Lines, null);
      AddLineIndices(b);
      AddCorners(b, [Corner(start.x, start.y, 0.0, 0.0), Corner(end.x, end.y, 0.0, 0.0)]);
    }

    /** Renderer.cs:326-329: the two ends of a line, from the batch's top index; an indexed batch stays indexed. */
    static method AddLineIndices(b: BatchRequest)
      modifies b`indices, b`topIndex
      ensures b.indices == old(b.indices) + LineIndices(old(b.topIndex)) && b.topIndex == old(b.topIndex) + 2
      ensures old(b.Indexed()) ==> forall k :: 0 <= k < |b.indices| ==> b.indices[k] < b.topIndex
    {
      var indexStart := b.GetTopIndex();
      ShapeTops(indexStart);
      b.AddIndex(indexStart, 0);
      b.AddIndex(indexStart, 1);
    }

    /**
     * Renderer.cs:351-402: a textured quad.  The batch is keyed by the GPU
     * texture underneath (an animated texture batches with its sheet); the
     * four corners' positions and texture coordinates are inputs.
     */
    method DrawTexture(texture: TextureRef, corners: seq<Corner>)
      requires Valid() && |corners| == 4
      modifies this`batch, this`drawCalls, this`submitted, batch`invalid
      modifies batch`indices, batch`topIndex, batch`vertices
      modifies batch.shader`uniforms, batch.shader`errors, batch.shader`sent
      modifies currentShader`attributes, currentShader`errors
      ensures Valid() && !batch.invalid && batch.format == PosUvColor
      ensures batch.texture == texture.GetTexture() && batch.shader == currentShader
      ensures if old(Continues(PosUvColor, texture.GetTexture()))
        then batch == old(batch) && batch.primitiveType == old(batch.primitiveType)
        else fresh(batch) && batch.primitiveType == Triangles
      ensures var reused := old(Continues(PosUvColor, texture.GetTexture()));
        var t := if reused then old(batch.topIndex) else 0;
        batch.indices == (if reused then old(batch.indices) else []) + QuadIndices(t) &&
        batch.topIndex == t + 4 &&
        batch.vertices == (if reused then old(batch.vertices) else []) + VerticesOf(corners, currentColor)
      ensures var flush := old(Flushes(PosUvColor, texture.GetTexture()));
        drawCalls == old(drawCalls) + (if flush then 1 else 0) &&
        Flushed(old(PendingDraw()), old(batch.shader), old(currentShader), flush)
    {
      var underlying := texture.GetTexture();
      var b := RequestBatch(PosUvColor, Triangles, underlying);
      AddQuad(b, corners);
    }

    /**
     * Two shapes drawn in a row share a batch: a line drawn right after a
     * rectangle makes no draw call of its own and joins the rectangle's
     * batch, so its two indices are drawn with that batch's primitive type
     * (triangles, unless the rectangle itself continued a line batch).
     */
    method RectangleThenLine(pos: Point, size: Point, start: Point, end: Point)
      requires Valid()
      modifies this`batch, this`drawCalls, this`submitted, batch`invalid
      modifies batch`indices, batch`topIndex, batch`vertices
      modifies batch.shader`uniforms, batch.shader`errors, batch.shader`sent
      modifies currentShader`attributes, currentShader`errors, currentShader`uniforms, currentShader`sent
      ensures Valid() && !batch.invalid
      ensures if old(Continues(PosUvColor, colorTexture))
        then batch == old(batch) && batch.primitiveType == old(batch.primitiveType)
        else fresh(batch) && batch.primitiveType == Triangles
      ensures var t := if old(Continues(PosUvColor, colorTexture)) then old(batch.topIndex) else 0;
        batch.indices == (if old(Continues(PosUvColor, colorTexture)) then old(batch.indices) else []) +
          QuadIndices(t) + LineIndices(t + 4)
      ensures drawCalls == old(drawCalls) + (if old(Flushes(PosUvColor, colorTexture)) then 1 else 0)
    {
      Rectangle(pos, size);
      Line(start, end);
    }

    /**
     * Renderer.cs:95-116: the default shader and the colour texture are
     * disposed on the first call; each is deleted from the GPU once, however
     * often the renderer is disposed.
     */
    method Dispose()
      requires Owned()
      modifies this`disposed, defaultShader`disposed, defaultShader`deletions, colorTexture
      ensures Owned() && disposed && defaultShader.disposed && colorTexture.disposed
      ensures defaultShader.deletions == 1 && colorTexture.deletions == 1
      ensures old(disposed) ==> unchanged(defaultShader, colorTexture)
    {
      if disposed {
        return;
      }
      defaultShader.Dispose();
      colorTexture.Dispose();
      disposed := true;
    }
  }

  /** Appending a draw call that stays within bounds keeps every draw call of the trace within bounds. */
  lemma AppendInBounds(draws: seq<DrawCall>, d: DrawCall)
    requires forall k :: 0 <= k < |draws| ==> draws[k].InBounds()
    requires d.InBounds()
    ensures forall k :: 0 <= k < |draws + [d]| ==> (draws + [d])[k].InBounds()
  {
  }

  /**
   * A batch whose indices all lie below its top and whose vertices number
   * the top draws within bounds: what Valid() keeps for every draw call.
   */
  lemma IndexedDrawInBounds(p: PrimitiveType, s: Shader, t: Texture2D, vertices: seq<real>, indices: seq<nat>, top: nat, attributes: seq<int>)
    requires |vertices| == FloatsPerVertex * top
    requires forall k :: 0 <= k < |indices| ==> indices[k] < top
    ensures DrawCall(p, s, t, vertices, indices, attributes).InBounds()
  {
  }
}
