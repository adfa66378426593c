/** The vertex-animation texture layout (vertex_animation.py).

    An animated mesh is sampled once per frame of the scene's frame range.
    Every vertex's offset from its frame-0 position and its normal become
    one RGBA pixel each; a texture row holds one frame, with the last frame
    in the first row. A copy of the frame-0 mesh gets a second texture
    coordinate layer, "vertex_anim", whose u picks the vertex's column. */
module VertexAnimation {
  import opened Wrappers
  import opened Geometry

  /** The error Python raises. */
  datatype PyError = ValueError | IndexError

  /** range(start, end, step), without the step-0 check. */
  function Stepped(start: int, end: int, step: int): seq<int>
    requires step != 0
    decreases if step > 0 then end - start else start - end
  {
    if (step > 0 && start < end) || (step < 0 && start > end) then [start] + Stepped(start + step, end, step)
    else []
  }

  lemma {:induction false} SteppedShape(start: int, end: int, step: int)
    requires step != 0
    ensures var r := Stepped(start, end, step);
      && (forall i | 0 <= i < |r| :: r[i] == start + i * step)
      && (forall i | 0 <= i < |r| :: if step > 0 then r[i] < end else r[i] > end)
      && (if step > 0 then start + |r| * step >= end else start + |r| * step <= end)
    decreases if step > 0 then end - start else start - end
  {
    var r := Stepped(start, end, step);
    if (step > 0 && start < end) || (step < 0 && start > end) {
      var rest := Stepped(start + step, end, step);
      SteppedShape(start + step, end, step);
      assert r == [start] + rest;
      forall i | 1 <= i < |r|
        ensures r[i] == start + i * step
      {
        assert r[i] == rest[i - 1] == start + step + (i - 1) * step;
        MulShift(i, step);
      }
      MulShift(|r|, step);
    }
  }

  lemma MulShift(i: int, step: int)
    ensures step + (i - 1) * step == i * step
  {
  }

  /** frame_range: the frames start, start + step, ... strictly before end
      (strictly after it for a negative step); range() rejects a zero step. */
  function FrameRange(start: int, end: int, step: int): (r: Result<seq<int>, PyError>)
    ensures r.Err? <==> step == 0
    ensures r.Err? ==> r.error == ValueError
    ensures r.Ok? ==> forall i | 0 <= i < |r.value| :: r.value[i] == start + i * step
    ensures r.Ok? && step > 0 ==> forall i | 0 <= i < |r.value| :: r.value[i] < end
    ensures r.Ok? && step < 0 ==> forall i | 0 <= i < |r.value| :: r.value[i] > end
    ensures r.Ok? && step > 0 ==> start + |r.value| * step >= end
    ensures r.Ok? && step < 0 ==> start + |r.value| * step <= end
  {
    if step == 0 then Err(ValueError)
    else
      SteppedShape(start, end, step);
      Ok(Stepped(start, end, step))
  }

  /** The row coordinate every loop gets in the "vertex_anim" layer. */
  const AnimV: real := 128.0 / 255.0

  /** The "vertex_anim" coordinate of a loop of vertex i among n vertices:
      the centre of column i, so a sampler recovers i. */
  function VertexAnimUv(i: nat, n: nat): (uv: Uv)
    requires i < n
    ensures 0.0 < uv.u < 1.0 && uv.v == AnimV
    ensures (uv.u * n as real).Floor == i
  {
    var u := (i as real + 0.5) / n as real;
    ColumnCentre(i as real + 0.5, n as real);
    Uv(u, AnimV)
  }

  lemma ColumnCentre(a: real, b: real)
    requires 0.0 < a < b
    ensures (a / b) * b == a
    ensures 0.0 < a / b < 1.0
  {
    BelowOne(a / b, b, a);
  }

  /** x * b == p < b with b positive puts x below 1. */
  lemma BelowOne(x: real, b: real, p: real)
    requires b > 0.0 && x * b == p && p < b
    ensures x < 1.0
  {
    assert (1.0 - x) * b == b - p;
  }

  /** The data of the "vertex_anim" layer, one entry per loop. */
  function AnimLayerData(loopVerts: seq<nat>, n: nat): (d: seq<Uv>)
    requires forall l | 0 <= l < |loopVerts| :: loopVerts[l] < n
    ensures |d| == |loopVerts|
    ensures forall l | 0 <= l < |d| :: d[l] == VertexAnimUv(loopVerts[l], n)
  {
    seq(|loopVerts|, l requires 0 <= l < |loopVerts| => VertexAnimUv(loopVerts[l], n))
  }

  /** A texture-coordinate layer: its name and one coordinate per loop. */
  datatype UvLayer = UvLayer(name: string, data: seq<Uv>)

  /** The mesh data block that becomes the exported mesh: its vertex count,
      the vertex of each loop, and its texture-coordinate layers. */
  class MeshData {
    const vertexCount: nat
    const loopVerts: seq<nat>
    var uvLayers: seq<UvLayer>

    ghost predicate Valid()
      reads this
    {
      && (forall l | 0 <= l < |loopVerts| :: loopVerts[l] < vertexCount)
      && (forall k | 0 <= k < |uvLayers| :: |uvLayers[k].data| == |loopVerts|)
    }

    constructor (vertexCount: nat, loopVerts: seq<nat>, uvLayers: seq<UvLayer>)
      requires forall l | 0 <= l < |loopVerts| :: loopVerts[l] < vertexCount
      requires forall k | 0 <= k < |uvLayers| :: |uvLayers[k].data| == |loopVerts|
      ensures Valid()
      ensures this.vertexCount == vertexCount && this.loopVerts == loopVerts
      ensures this.uvLayers == uvLayers
    {
      this.vertexCount := vertexCount;
      this.loopVerts := loopVerts;
      this.uvLayers := uvLayers;
    }

    /** create_export_mesh_object, on the mesh data: add layers until there
        are two (`added` is the layer the host creates), rename layer 1 to
        "vertex_anim" and write every loop's lookup coordinate into it. */
    method CreateExportMesh(added: UvLayer)
      requires Valid() && |added.data| == |loopVerts|
      modifies this
      ensures Valid()
      ensures |uvLayers| == if |old(uvLayers)| < 2 then 2 else |old(uvLayers)|
      ensures uvLayers[0] == if old(uvLayers) == [] then added else old(uvLayers)[0]
      ensures uvLayers[1] == UvLayer("vertex_anim", AnimLayerData(loopVerts, vertexCount))
      ensures forall k | 2 <= k < |uvLayers| :: uvLayers[k] == old(uvLayers)[k]
    {
      while |uvLayers| < 2
        invariant Valid()
        invariant |uvLayers| == (if |old(uvLayers)| < |uvLayers| then |uvLayers| else |old(uvLayers)|)
        invariant |uvLayers| <= 2 || uvLayers == old(uvLayers)
        invariant forall k | 0 <= k < |uvLayers| ::
          uvLayers[k] == if k < |old(uvLayers)| then old(uvLayers)[k] else added
        decreases 2 - |uvLayers|
      {
        uvLayers := uvLayers + [added];
      }
      uvLayers := uvLayers[1 := uvLayers[1].(name := "vertex_anim")];
      ghost var count := |uvLayers|;
      for l := 0 to |loopVerts|
        invariant Valid() && |uvLayers| == count
        invariant uvLayers[1].name == "vertex_anim"
        invariant forall k | 0 <= k < |uvLayers| && k != 1 ::
          uvLayers[k] == if k < |old(uvLayers)| then old(uvLayers)[k] else added
        invariant forall j | 0 <= j < l :: uvLayers[1].data[j] == VertexAnimUv(loopVerts[j], vertexCount)
      {
        var layer := uvLayers[1];
        uvLayers := uvLayers[1 := layer.(data := layer.data[l := VertexAnimUv(loopVerts[l], vertexCount)])];
      }
    }
  }

  /** One vertex of one frame's mesh. */
  datatype FrameVertex = FrameVertex(co: Vec3, normal: Vec3)

  /** The offset pixel, in the exporter's axis order: (-dy, dz, dx, 1). */
  function OffsetPixel(d: Vec3): (p: seq<real>)
    ensures |p| == 4 && p[3] == 1.0
    ensures DecodeOffset(p) == d
  {
    [-d.y, d.z, d.x, 1.0]
  }

  /** The offset a shader reads back from a pixel. */
  function DecodeOffset(p: seq<real>): Vec3
    requires |p| >= 3
  {
    Vec3(p[2], -p[0], p[1])
  }

  /** The normal pixel: each component mapped from [-1, 1] to [0, 1], y negated. */
  function NormalPixel(n: Vec3): (p: seq<real>)
    ensures |p| == 4 && p[3] == 1.0
    ensures DecodeNormal(p) == n
    ensures -1.0 <= n.x <= 1.0 && -1.0 <= n.y <= 1.0 && -1.0 <= n.z <= 1.0 ==>
      forall c | 0 <= c < 4 :: 0.0 <= p[c] <= 1.0
  {
    [(n.x + 1.0) * 0.5, (-n.y + 1.0) * 0.5, (n.z + 1.0) * 0.5, 1.0]
  }

  /** The normal a shader reads back from a pixel. */
  function DecodeNormal(p: seq<real>): Vec3
    requires |p| >= 3
  {
    Vec3(p[0] * 2.0 - 1.0, 1.0 - p[1] * 2.0, p[2] * 2.0 - 1.0)
  }

  /** The offset pixels of one frame's vertices, against frame 0. */
  function FrameOffsets(base: seq<FrameVertex>, frame: seq<FrameVertex>): (r: seq<real>)
    requires |frame| <= |base|
    ensures |r| == 4 * |frame|
  {
    if frame == [] then []
    else
      var i := |frame| - 1;
      FrameOffsets(base, frame[..i]) + OffsetPixel(Sub(frame[i].co, base[i].co))
  }

  /** The normal pixels of one frame's vertices. */
  function FrameNormals(frame: seq<FrameVertex>): (r: seq<real>)
    ensures |r| == 4 * |frame|
  {
    if frame == [] then []
    else FrameNormals(frame[..|frame| - 1]) + NormalPixel(frame[|frame| - 1].normal)
  }

  /** Frames no longer than the base frame. */
  predicate Fits(base: seq<FrameVertex>, frames: seq<seq<FrameVertex>>) {
    forall f | 0 <= f < |frames| :: |frames[f]| <= |base|
  }

  /** The number of vertices over all frames. */
  function Total(frames: seq<seq<FrameVertex>>): nat {
    if frames == [] then 0 else Total(frames[..|frames| - 1]) + |frames[|frames| - 1]|
  }

  /** The offset pixels of the frames, in the given order. */
  function Offsets(base: seq<FrameVertex>, frames: seq<seq<FrameVertex>>): (r: seq<real>)
    requires Fits(base, frames)
    ensures |r| == 4 * Total(frames)
  {
    if frames == [] then []
    else Offsets(base, frames[..|frames| - 1]) + FrameOffsets(base, frames[|frames| - 1])
  }

  /** The normal pixels of the frames, in the given order. */
  function Normals(frames: seq<seq<FrameVertex>>): (r: seq<real>)
    ensures |r| == 4 * Total(frames)
  {
    if frames == [] then []
    else Normals(frames[..|frames| - 1]) + FrameNormals(frames[|frames| - 1])
  }

  /** The frames from last to first. */
  function Reversed<T>(s: seq<T>): (r: seq<T>)
    ensures |r| == |s|
    ensures forall k | 0 <= k < |s| :: r[k] == s[|s| - 1 - k]
  {
    seq(|s|, k requires 0 <= k < |s| => s[|s| - 1 - k])
  }

  /** The inner loop of get_vertex_data: append one frame's pixels. Frame
      0 has no vertex for the index of a vertex past its end. */
  method AppendFrame(original: seq<FrameVertex>, mesh: seq<FrameVertex>, offsets: seq<real>, normals: seq<real>)
    returns (r: Result<(seq<real>, seq<real>), PyError>)
    ensures r.Err? <==> |mesh| > |original|
    ensures r.Err? ==> r.error == IndexError
    ensures r.Ok? ==> r.value == (offsets + FrameOffsets(original, mesh), normals + FrameNormals(mesh))
  {
    var offs, norms := offsets, normals;
    for i := 0 to |mesh|
      invariant i <= |original|
      invariant offs == offsets + FrameOffsets(original, mesh[..i])
      invariant norms == normals + FrameNormals(mesh[..i])
    {
      if i >= |original| {
        return Err(IndexError);
      }
      assert mesh[..i + 1][..i] == mesh[..i];
      var v := mesh[i];
      offs := offs + OffsetPixel(Sub(v.co, original[i].co));
      norms := norms + NormalPixel(v.normal);
    }
    assert mesh[..|mesh|] == mesh;
    return Ok((offs, norms));
  }

  /** get_vertex_data: the offset and normal pixels of every frame, last
      frame first. Frame 0 is the reference for the offsets, so there must be
      one, and a later frame with more vertices than frame 0 fails on the
      first vertex frame 0 lacks. */
  method GetVertexData(frames: seq<seq<FrameVertex>>) returns (r: Result<(seq<real>, seq<real>), PyError>)
    ensures r.Err? <==> frames == [] || !Fits(frames[0], frames)
    ensures r.Err? ==> r.error == IndexError
    ensures r.Ok? ==> r.value.0 == Offsets(frames[0], Reversed(frames))
    ensures r.Ok? ==> r.value.1 == Normals(Reversed(frames))
  {
    if |frames| == 0 {
      return Err(IndexError);
    }
    var original := frames[0];
    var offsets: seq<real> := [];
    var normals: seq<real> := [];
    var order := Reversed(frames);
    for k := 0 to |frames|
      invariant Fits(original, order[..k])
      invariant offsets == Offsets(original, order[..k])
      invariant normals == Normals(order[..k])
    {
      var mesh := frames[|frames| - 1 - k];
      assert mesh == order[k];
      assert order[..k + 1][..k] == order[..k];
      var next := AppendFrame(original, mesh, offsets, normals);
      match next {
        case Err(e) =>
          assert |frames[|frames| - 1 - k]| > |frames[0]|;
          return Err(e);
        case Ok((o, n)) =>
          offsets, normals := o, n;
      }
    }
    assert order[..|frames|] == order;
    assert Fits(original, frames) by {
      forall f | 0 <= f < |frames|
        ensures |frames[f]| <= |original|
      {
        assert frames[f] == order[|frames| - 1 - f];
      }
    }
    return Ok((offsets, normals));
  }

  /** Every frame has n vertices. */
  predicate Uniform(frames: seq<seq<FrameVertex>>, n: nat) {
    forall f | 0 <= f < |frames| :: |frames[f]| == n
  }

  /** F frames of V vertices each hold F * V vertices. */
  lemma {:induction false} TotalUniform(frames: seq<seq<FrameVertex>>, n: nat)
    requires Uniform(frames, n)
    ensures Total(frames) == |frames| * n
  {
    if frames != [] {
      var f := |frames| - 1;
      TotalUniform(frames[..f], n);
      assert f * n + n == |frames| * n;
    }
  }

  /** One RGBA pixel per (frame, vertex): 4 * F * V values. */
  lemma OffsetsLength(base: seq<FrameVertex>, frames: seq<seq<FrameVertex>>, n: nat)
    requires Uniform(frames, n) && n <= |base|
    ensures |Offsets(base, frames)| == 4 * (|frames| * n)
    ensures |Normals(frames)| == 4 * (|frames| * n)
  {
    TotalUniform(frames, n);
  }

  /** Frames of at most n vertices hold at most F * n vertices, and exactly
      that many only when every frame has n. */
  lemma {:induction false} TotalAtMost(frames: seq<seq<FrameVertex>>, n: nat)
    requires forall f | 0 <= f < |frames| :: |frames[f]| <= n
    ensures Total(frames) <= |frames| * n
    ensures Total(frames) == |frames| * n ==> Uniform(frames, n)
  {
    if frames != [] {
      var f := |frames| - 1;
      assert forall g | 0 <= g < f :: frames[..f][g] == frames[g];
      TotalAtMost(frames[..f], n);
      assert |frames| * n == f * n + n;
    }
  }

  /** The baked buffers fill a (vertex count) x (frame count) RGBA texture
      exactly when every frame has as many vertices as frame 0; when a
      frame is shorter they fall short of it. */
  lemma TextureSize(frames: seq<seq<FrameVertex>>)
    requires frames != []
    ensures Uniform(frames, |frames[0]|) ==>
      && |Offsets(frames[0], Reversed(frames))| == |frames[0]| * |frames| * 4
      && |Normals(Reversed(frames))| == |frames[0]| * |frames| * 4
    ensures Fits(frames[0], Reversed(frames)) && !Uniform(frames, |frames[0]|) ==>
      && |Offsets(frames[0], Reversed(frames))| < |frames[0]| * |frames| * 4
      && |Normals(Reversed(frames))| < |frames[0]| * |frames| * 4
  {
    var n := |frames[0]|;
    if Uniform(frames, n) {
      assert Uniform(Reversed(frames), n);
      OffsetsLength(frames[0], Reversed(frames), n);
      assert 4 * (|frames| * n) == n * |frames| * 4;
    } else if Fits(frames[0], Reversed(frames)) {
      TotalAtMost(Reversed(frames), n);
      var f :| 0 <= f < |frames| && |frames[f]| != n;
      assert Reversed(frames)[|frames| - 1 - f] == frames[f];
      assert 4 * (|frames| * n) == n * |frames| * 4;
    }
  }

  /** Channel c of vertex i's pixel within one frame. */
  lemma {:induction false} FramePixelAt(base: seq<FrameVertex>, frame: seq<FrameVertex>, i: nat, c: nat)
    requires |frame| <= |base| && i < |frame| && c < 4
    ensures FrameOffsets(base, frame)[4 * i + c] == OffsetPixel(Sub(frame[i].co, base[i].co))[c]
    ensures FrameNormals(frame)[4 * i + c] == NormalPixel(frame[i].normal)[c]
  {
    var m := |frame| - 1;
    if i < m {
      assert frame[..m][i] == frame[i];
      FramePixelAt(base, frame[..m], i, c);
    }
  }

  /** Channel c of the pixel of vertex i in frame k sits at PixelIndex(k, V, i, c). */
  lemma {:induction false} PixelAt(base: seq<FrameVertex>, frames: seq<seq<FrameVertex>>, n: nat, k: nat, i: nat, c: nat)
    requires Uniform(frames, n) && n <= |base|
    requires k < |frames| && i < n && c < 4
    ensures var p := PixelIndex(k, n, i, c);
      var offs := Offsets(base, frames);
      var norms := Normals(frames);
      && p < |offs| && offs[p] == OffsetPixel(Sub(frames[k][i].co, base[i].co))[c]
      && p < |norms| && norms[p] == NormalPixel(frames[k][i].normal)[c]
  {
    var f := |frames| - 1;
    var p := PixelIndex(k, n, i, c);
    OffsetsLength(base, frames, n);
    OffsetsLength(base, frames[..f], n);
    IndexBounds(k, n, i, c, f);
    if k < f {
      assert frames[..f][k] == frames[k];
      PixelAt(base, frames[..f], n, k, i, c);
    } else {
      FramePixelAt(base, frames[f], i, c);
    }
  }

  /** Where channel c of vertex i of row k lies, with n vertices per row. */
  function PixelIndex(k: nat, n: nat, i: nat, c: nat): nat {
    4 * (k * n + i) + c
  }

  lemma IndexBounds(k: nat, n: nat, i: nat, c: nat, f: nat)
    requires k <= f && i < n && c < 4
    ensures PixelIndex(k, n, i, c) < 4 * ((f + 1) * n)
    ensures k < f ==> PixelIndex(k, n, i, c) < 4 * (f * n)
    ensures k == f ==> PixelIndex(k, n, i, c) - 4 * (f * n) == 4 * i + c
  {
    var kn, fn := k * n, f * n;
    assert PixelIndex(k, n, i, c) == 4 * kn + 4 * i + c;
    Distribute(f, n);
    MulMono(k, f, n);
    if k < f {
      MulMono(k + 1, f, n);
      Distribute(k, n);
    }
  }

  lemma Distribute(a: nat, n: nat)
    ensures (a + 1) * n == a * n + n
  {
  }

  lemma MulMono(a: nat, b: nat, n: nat)
    requires a <= b
    ensures a * n <= b * n
  {
  }

  /** The pixels get_vertex_data emits: row k holds frame F - 1 - k, so the
      first row is the last frame and the last row is frame 0. */
  lemma PixelOrigin(frames: seq<seq<FrameVertex>>, k: nat, i: nat, c: nat)
    requires frames != [] && Uniform(frames, |frames[0]|)
    requires k < |frames| && i < |frames[0]| && c < 4
    ensures var n := |frames[0]|;
      var p := PixelIndex(k, n, i, c);
      var src := frames[|frames| - 1 - k][i];
      var offs := Offsets(frames[0], Reversed(frames));
      var norms := Normals(Reversed(frames));
      && p < |offs| && offs[p] == OffsetPixel(Sub(src.co, frames[0][i].co))[c]
      && p < |norms| && norms[p] == NormalPixel(src.normal)[c]
  {
    PixelAt(frames[0], Reversed(frames), |frames[0]|, k, i, c);
  }

  /** Frame 0's row of the offset texture is all (0, 0, 0, 1). */
  lemma FrameZeroRow(frames: seq<seq<FrameVertex>>, i: nat, c: nat)
    requires frames != [] && Uniform(frames, |frames[0]|)
    requires i < |frames[0]| && c < 4
    ensures var p := PixelIndex(|frames| - 1, |frames[0]|, i, c);
      var offs := Offsets(frames[0], Reversed(frames));
      p < |offs| && offs[p] == [0.0, 0.0, 0.0, 1.0][c]
  {
    var k := |frames| - 1;
    var n := |frames[0]|;
    var p := PixelIndex(k, n, i, c);
    var offs := Offsets(frames[0], Reversed(frames));
    PixelOrigin(frames, k, i, c);
    var v := frames[0][i].co;
    assert p < |offs| && offs[p] == OffsetPixel(Sub(v, v))[c];
    ZeroOffset(v);
  }

  /** A vertex at its frame-0 position has the offset pixel (0, 0, 0, 1). */
  lemma ZeroOffset(v: Vec3)
    ensures OffsetPixel(Sub(v, v)) == [0.0, 0.0, 0.0, 1.0]
  {
  }

  /** A run of (0, 0, 0, 1) pixels. */
  predicate RestPixels(s: seq<real>) {
    forall j | 0 <= j < |s| :: s[j] == if j % 4 == 3 then 1.0 else 0.0
  }

  lemma RestConcat(a: seq<real>, b: seq<real>, m: nat)
    requires RestPixels(a) && RestPixels(b) && |a| == 4 * m
    ensures RestPixels(a + b)
  {
    forall j | |a| <= j < |a + b|
      ensures (a + b)[j] == if j % 4 == 3 then 1.0 else 0.0
    {
      assert j % 4 == (j - |a|) % 4;
    }
  }

  lemma {:induction false} StaticFrame(base: seq<FrameVertex>, frame: seq<FrameVertex>)
    requires |frame| <= |base|
    requires forall i | 0 <= i < |frame| :: frame[i].co == base[i].co
    ensures RestPixels(FrameOffsets(base, frame))
  {
    if frame != [] {
      var m := |frame| - 1;
      StaticFrame(base, frame[..m]);
      RestConcat(FrameOffsets(base, frame[..m]), OffsetPixel(Sub(frame[m].co, base[m].co)), m);
    }
  }

  /** A mesh that does not move: every offset pixel is (0, 0, 0, 1). */
  lemma {:induction false} StaticOffsets(base: seq<FrameVertex>, frames: seq<seq<FrameVertex>>)
    requires Fits(base, frames)
    requires forall f, i | 0 <= f < |frames| && 0 <= i < |frames[f]| :: frames[f][i].co == base[i].co
    ensures RestPixels(Offsets(base, frames))
  {
    if frames != [] {
      var f := |frames| - 1;
      StaticOffsets(base, frames[..f]);
      StaticFrame(base, frames[f]);
      RestConcat(Offsets(base, frames[..f]), FrameOffsets(base, frames[f]), Total(frames[..f]));
    }
  }

  /** The two textures export_vertex_animation bakes: one column per vertex,
      one row per frame. */
  datatype Baked = Baked(width: nat, height: nat, offsets: seq<real>, normals: seq<real>)

  /** export_vertex_animation, given the sampled frames: size the textures
      from frame 0 and the frame count, prepare the export mesh (a copy of
      frame 0) and compute the pixels. */
  method ExportVertexAnimation(frames: seq<seq<FrameVertex>>, mesh: MeshData, added: UvLayer)
    returns (r: Result<Baked, PyError>)
    requires mesh.Valid() && |added.data| == |mesh.loopVerts|
    requires frames != [] ==> mesh.vertexCount == |frames[0]|
    modifies mesh
    ensures frames == [] ==> r == Err(IndexError) && unchanged(mesh)
    ensures frames != [] ==>
      && mesh.Valid()
      && |mesh.uvLayers| == (if |old(mesh.uvLayers)| < 2 then 2 else |old(mesh.uvLayers)|)
      && mesh.uvLayers[0] == (if old(mesh.uvLayers) == [] then added else old(mesh.uvLayers)[0])
      && mesh.uvLayers[1] == UvLayer("vertex_anim", AnimLayerData(mesh.loopVerts, mesh.vertexCount))
      && (forall k | 2 <= k < |mesh.uvLayers| :: mesh.uvLayers[k] == old(mesh.uvLayers)[k])
    ensures frames != [] ==> (r.Err? <==> !Fits(frames[0], frames))
    ensures r.Ok? ==> r.value == Baked(|frames[0]|, |frames|,
      Offsets(frames[0], Reversed(frames)), Normals(Reversed(frames)))
    ensures r.Ok? && Uniform(frames, |frames[0]|) ==>
      && r.value.width * r.value.height * 4 == |r.value.offsets|
      && r.value.width * r.value.height * 4 == |r.value.normals|
    ensures r.Ok? && !Uniform(frames, |frames[0]|) ==>
      && |r.value.offsets| < r.value.width * r.value.height * 4
      && |r.value.normals| < r.value.width * r.value.height * 4
  {
    if |frames| == 0 {
      return Err(IndexError);
    }
    var frameCount := |frames|;
    var vertexCount := |frames[0]|;
    mesh.CreateExportMesh(added);
    var data := GetVertexData(frames);
    match data {
      case Err(e) =>
        return Err(e);
      case Ok((offsets, normals)) =>
        TextureSize(frames);
        return Ok(Baked(vertexCount, frameCount, offsets, normals));
    }
  }
}
