/**
 * render_mesh: the filtering loop that turns a mesh's index triples into
 * SubmitScreenTriangle commands. The per-vertex transform and lighting are
 * floating-point work outside this model: a mesh arrives with each vertex
 * already in screen space and lit. Back-face culling is a parameter.
 */
module Mesh {
  import opened Words
  import opened Vertex
  import opened Fixed
  import opened Transform
  import opened Render

  /** Size of the transformed-vertex table; vertices past it are never read. */
  const MaxTransformed: nat := 148

  /** A `u16` vertex index. */
  type Index = i: nat | i < 0x1_0000

  /** One vertex after transform and lighting: screen position and RGBA color. */
  datatype TransformedVertex = TransformedVertex(screen: ScreenVertex, r: B8, g: B8, b: B8, a: B8)

  datatype MeshRef = MeshRef(vertices: seq<TransformedVertex>, indices: seq<(Index, Index, Index)>)

  /** The culling test: true keeps the triangle. */
  type Cull = (ScreenVertex, ScreenVertex, ScreenVertex) -> bool

  /** How many vertices are transformed: the mesh's count, capped at the table size. */
  function VertCount(mesh: MeshRef): (n: nat)
    ensures n <= MaxTransformed && n <= |mesh.vertices|
    ensures n == |mesh.vertices| || n == MaxTransformed
  {
    if |mesh.vertices| < MaxTransformed then |mesh.vertices| else MaxTransformed
  }

  predicate InRange(mesh: MeshRef, t: (Index, Index, Index)) {
    t.0 < VertCount(mesh) && t.1 < VertCount(mesh) && t.2 < VertCount(mesh)
  }

  /** A triple is submitted when all three indices are transformed and the triangle passes the cull. */
  predicate Kept(mesh: MeshRef, cull: Cull, t: (Index, Index, Index)) {
    InRange(mesh, t)
    && cull(mesh.vertices[t.0].screen, mesh.vertices[t.1].screen, mesh.vertices[t.2].screen)
  }

  /** screen_to_gpu: color and position packed, no UV. */
  function ScreenToGpu(v: TransformedVertex): GpuVertex {
    FromColorPosition(v.r, v.g, v.b, v.a, v.screen.x, v.screen.y, v.screen.z)
  }

  /** A screen vertex reaches the GPU with its four color bytes in R, G, B, A order and no texture coordinates. */
  lemma ScreenToGpuColor(v: TransformedVertex)
    ensures var g := ScreenToGpu(v); g.colorPacked & 0xFF == v.r && (g.colorPacked >> 8) & 0xFF == v.g
    ensures var g := ScreenToGpu(v); (g.colorPacked >> 16) & 0xFF == v.b && (g.colorPacked >> 24) & 0xFF == v.a
    ensures ScreenToGpu(v).colorPacked >> 32 == 0
    ensures ScreenToGpu(v).uvPacked == 0
  {
    PackColorLayout(v.r, v.g, v.b, v.a);
  }

  /** The VERTEX word of a screen vertex holds its screen position in fixed point. */
  lemma ScreenToGpuPosition(v: TransformedVertex)
    ensures HoldsPosition(ScreenToGpu(v).positionPacked, v.screen.x, v.screen.y, v.screen.z)
  {
    PackPositionLayout(v.screen.x, v.screen.y, v.screen.z);
  }

  /**
   * How a transformed vertex becomes a GPU vertex. The loop is proved for any
   * packer and run with `ScreenToGpu`, which keeps the fixed-point
   * conversions out of the loop's proof.
   */
  type Packer = TransformedVertex -> GpuVertex

  /** The command for one kept triple: an untextured screen triangle. */
  function TriangleFor(mesh: MeshRef, pack: Packer, t: (Index, Index, Index)): RenderCommand
    requires InRange(mesh, t)
  {
    SubmitScreenTriangle(ScreenTriangle(pack(mesh.vertices[t.0]), pack(mesh.vertices[t.1]), pack(mesh.vertices[t.2]), false))
  }

  /**
   * The positions, among the first `k` triples, that are submitted: strictly
   * increasing (each triple at most once, in index order) and exactly the kept ones.
   */
  function Selected(mesh: MeshRef, cull: Cull, k: nat): (s: seq<nat>)
    requires k <= |mesh.indices|
    ensures forall i :: 0 <= i < |s| ==> s[i] < k && Kept(mesh, cull, mesh.indices[s[i]])
    ensures forall j :: 0 <= j < k && Kept(mesh, cull, mesh.indices[j]) ==> j in s
    ensures forall a, b :: 0 <= a < b < |s| ==> s[a] < s[b]
  {
    if k == 0 then []
    else Selected(mesh, cull, k - 1) + (if Kept(mesh, cull, mesh.indices[k - 1]) then [k - 1] else [])
  }

  /** The commands for the selected positions among the first `k` triples. */
  predicate EnqueuedUpTo(mesh: MeshRef, cull: Cull, pack: Packer, k: nat, e: seq<RenderCommand>)
    requires k <= |mesh.indices|
  {
    var s := Selected(mesh, cull, k);
    |e| == |s| && forall i :: 0 <= i < |e| ==> e[i] == TriangleFor(mesh, pack, mesh.indices[s[i]])
  }

  /** One loop step: a kept triple appends its triangle, any other appends nothing. */
  lemma EnqueuedStep(mesh: MeshRef, cull: Cull, pack: Packer, k: nat, e: seq<RenderCommand>)
    requires k < |mesh.indices| && EnqueuedUpTo(mesh, cull, pack, k, e)
    ensures Kept(mesh, cull, mesh.indices[k]) ==> EnqueuedUpTo(mesh, cull, pack, k + 1, e + [TriangleFor(mesh, pack, mesh.indices[k])])
    ensures !Kept(mesh, cull, mesh.indices[k]) ==> EnqueuedUpTo(mesh, cull, pack, k + 1, e)
  {
    var s := Selected(mesh, cull, k);
    if Kept(mesh, cull, mesh.indices[k]) {
      var e2 := e + [TriangleFor(mesh, pack, mesh.indices[k])];
      assert Selected(mesh, cull, k + 1) == s + [k];
      forall i | 0 <= i < |e2|
        ensures e2[i] == TriangleFor(mesh, pack, mesh.indices[(s + [k])[i]])
      {
        if i < |e| {
          assert e2[i] == e[i];
        }
      }
    } else {
      assert Selected(mesh, cull, k + 1) == s;
    }
  }

  /**
   * The phase-2 loop over the index triples; each element of the result is one
   * `enqueue` call. The commands are the kept triples' untextured triangles,
   * one for one, in index order.
   */
  method RenderMesh(mesh: MeshRef, cull: Cull) returns (enqueued: seq<RenderCommand>)
    ensures |enqueued| == |Selected(mesh, cull, |mesh.indices|)|
    ensures forall i :: 0 <= i < |enqueued| ==>
      enqueued[i] == TriangleFor(mesh, ScreenToGpu, mesh.indices[Selected(mesh, cull, |mesh.indices|)[i]])
  {
    enqueued := RenderMeshWith(mesh, cull, ScreenToGpu);
  }

  /** The loop itself, for a given packer. */
  method RenderMeshWith(mesh: MeshRef, cull: Cull, pack: Packer) returns (enqueued: seq<RenderCommand>)
    ensures EnqueuedUpTo(mesh, cull, pack, |mesh.indices|, enqueued)
  {
    var n := VertCount(mesh);
    enqueued := [];
    var k := 0;
    while k < |mesh.indices|
      invariant k <= |mesh.indices|
      invariant EnqueuedUpTo(mesh, cull, pack, k, enqueued)
    {
      var t := mesh.indices[k];
      EnqueuedStep(mesh, cull, pack, k, enqueued);
      if t.0 >= n || t.1 >= n || t.2 >= n {
        assert !Kept(mesh, cull, t);
        k := k + 1;
        continue;
      }
      if !cull(mesh.vertices[t.0].screen, mesh.vertices[t.1].screen, mesh.vertices[t.2].screen) {
        assert !Kept(mesh, cull, t);
        k := k + 1;
        continue;
      }
      assert Kept(mesh, cull, t);
      enqueued := enqueued + [TriangleFor(mesh, pack, t)];
      k := k + 1;
    }
  }

  /** Each command the loop enqueues is an untextured screen triangle, and there are at most as many as triples. */
  lemma RenderMeshShape(mesh: MeshRef, cull: Cull, pack: Packer, enqueued: seq<RenderCommand>)
    requires EnqueuedUpTo(mesh, cull, pack, |mesh.indices|, enqueued)
    ensures |enqueued| <= |mesh.indices|
    ensures forall i :: 0 <= i < |enqueued| ==> enqueued[i].SubmitScreenTriangle? && !enqueued[i].tri.textured
  {
    var s := Selected(mesh, cull, |mesh.indices|);
    SelectedBound(s, |mesh.indices|);
  }

  /** A strictly increasing sequence of naturals below `k` has at most `k` elements. */
  lemma {:induction false} SelectedBound(s: seq<nat>, k: nat)
    requires forall i :: 0 <= i < |s| ==> s[i] < k
    requires forall a, b :: 0 <= a < b < |s| ==> s[a] < s[b]
    ensures |s| <= k
  {
    if |s| > 0 {
      var t := s[..|s| - 1];
      assert forall i :: 0 <= i < |t| ==> t[i] < s[|s| - 1];
      SelectedBound(t, s[|s| - 1]);
    }
  }

  /** Vertices past the table size change nothing: only the first 148 are ever read. */
  lemma {:induction false} SelectedIgnoresVerticesPastLimit(mesh: MeshRef, cull: Cull, k: nat)
    requires k <= |mesh.indices|
    requires |mesh.vertices| > MaxTransformed
    ensures Selected(mesh.(vertices := mesh.vertices[..MaxTransformed]), cull, k) == Selected(mesh, cull, k)
  {
    var m := mesh.(vertices := mesh.vertices[..MaxTransformed]);
    assert VertCount(m) == VertCount(mesh);
    if k > 0 {
      SelectedIgnoresVerticesPastLimit(mesh, cull, k - 1);
      var t := mesh.indices[k - 1];
      if InRange(mesh, t) {
        assert m.vertices[t.0] == mesh.vertices[t.0];
        assert m.vertices[t.1] == mesh.vertices[t.1];
        assert m.vertices[t.2] == mesh.vertices[t.2];
      }
    }
  }

  /** A kept triple's triangle reads only the first 148 vertices. */
  lemma TriangleForIgnoresVerticesPastLimit(mesh: MeshRef, pack: Packer, t: (Index, Index, Index))
    requires |mesh.vertices| > MaxTransformed && InRange(mesh, t)
    ensures TriangleFor(mesh.(vertices := mesh.vertices[..MaxTransformed]), pack, t) == TriangleFor(mesh, pack, t)
  {
    var m := mesh.(vertices := mesh.vertices[..MaxTransformed]);
    assert m.vertices[t.0] == mesh.vertices[t.0];
    assert m.vertices[t.1] == mesh.vertices[t.1];
    assert m.vertices[t.2] == mesh.vertices[t.2];
  }

  /** With back-face culling, every submitted triangle is front-facing. */
  lemma CulledMeshIsFrontFacing(mesh: MeshRef, i: nat)
    requires i < |Selected(mesh, (a, b, c) => IsFrontFacing(a, b, c), |mesh.indices|)|
    ensures var t := mesh.indices[Selected(mesh, (a, b, c) => IsFrontFacing(a, b, c), |mesh.indices|)[i]];
      InRange(mesh, t)
      && IsFrontFacing(mesh.vertices[t.0].screen, mesh.vertices[t.1].screen, mesh.vertices[t.2].screen)
  {
  }
}
