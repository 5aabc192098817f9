/**
 * The asset tool's greedy mesh splitter: triangles are taken in order and
 * packed into patches of bounded vertex and index count, each patch with
 * its own local vertex numbering. Vertex data is opaque here (type `V`);
 * only which vertex goes where matters.
 */
module MeshPatcher {
  import opened Wrappers
  import opened Bytes

  /** One output patch: its vertices, its local (`u16`) indices, and its position in the output. */
  datatype RawPatch<V> = RawPatch(vertices: seq<V>, indices: seq<nat>, patchIndex: nat)

  /** Local indices are stored as `u16`: the conversion keeps the low 16 bits. */
  const U16Range: nat := 0x1_0000

  /** The patch being filled: its vertices, its local indices, and the global-to-local vertex map. */
  datatype Open<V> = Open(verts: seq<V>, idx: seq<nat>, vmap: map<nat, nat>)

  function Empty<V>(): Open<V> {
    Open([], [], map[])
  }

  function Max(a: nat, b: nat): nat {
    if a < b then b else a
  }

  /** Pairwise distinct elements. */
  ghost predicate Distinct<T>(s: seq<T>) {
    forall a, b :: 0 <= a < b < |s| ==> s[a] != s[b]
  }

  /** The vertices a sequence of global indices names, in order. */
  function Lookup<V>(vertices: seq<V>, s: seq<nat>): (r: seq<V>)
    requires forall j :: 0 <= j < |s| ==> s[j] < |vertices|
    ensures |r| == |s|
  {
    seq(|s|, j requires 0 <= j < |s| => vertices[s[j]])
  }

  // ---------------------------------------------------------------------
  // One vertex, one triangle

  /**
   * Append global vertex `g` to the open patch: a vertex already in the
   * patch is referenced by its local index, a new one is appended and
   * numbered by the patch's current size (truncated to `u16`).
   */
  function AddVertex<V>(vertices: seq<V>, o: Open<V>, g: nat): (r: Open<V>)
    requires g < |vertices|
    ensures |r.verts| == |o.verts| + (if g in o.vmap then 0 else 1)
    ensures |r.idx| == |o.idx| + 1
    ensures r.vmap.Keys == o.vmap.Keys + {g}
  {
    if g in o.vmap then o.(idx := o.idx + [o.vmap[g]])
    else
      var local := |o.verts| % U16Range;
      Open(o.verts + [vertices[g]], o.idx + [local], o.vmap[g := local])
  }

  /** How many of the triangle's three indices are not yet in the patch; a repeated new index counts twice. */
  function NewVerts<V>(o: Open<V>, i0: nat, i1: nat, i2: nat): (n: nat)
    ensures n <= 3
  {
    (if i0 in o.vmap then 0 else 1) + (if i1 in o.vmap then 0 else 1) + (if i2 in o.vmap then 0 else 1)
  }

  /** A non-empty patch is closed when the next triangle could push it past either limit. */
  predicate MustClose<V>(o: Open<V>, i0: nat, i1: nat, i2: nat, maxVertices: nat, maxIndices: nat) {
    (|o.verts| + NewVerts(o, i0, i1, i2) > maxVertices || |o.idx| + 3 > maxIndices) && |o.verts| > 0
  }

  /** The three vertices of one triangle, in order. */
  function AddTriangle<V>(vertices: seq<V>, o: Open<V>, i0: nat, i1: nat, i2: nat): Open<V>
    requires i0 < |vertices| && i1 < |vertices| && i2 < |vertices|
  {
    AddVertex(vertices, AddVertex(vertices, AddVertex(vertices, o, i0), i1), i2)
  }

  /** A triangle adds three indices and at most `NewVerts` vertices. */
  lemma AddTriangleGrowth<V>(vertices: seq<V>, o: Open<V>, i0: nat, i1: nat, i2: nat)
    requires i0 < |vertices| && i1 < |vertices| && i2 < |vertices|
    ensures |AddTriangle(vertices, o, i0, i1, i2).idx| == |o.idx| + 3
    ensures |AddTriangle(vertices, o, i0, i1, i2).verts| <= |o.verts| + NewVerts(o, i0, i1, i2)
  {
    var o1 := AddVertex(vertices, o, i0);
    var o2 := AddVertex(vertices, o1, i1);
    assert i1 !in o1.vmap ==> i1 !in o.vmap;
    assert i2 !in o2.vmap ==> i2 !in o.vmap;
  }

  // ---------------------------------------------------------------------
  // What an open patch holds

  /** The vertex map after adding `globals` in order: each sent to its position, truncated to `u16`. */
  function IndexMap(globals: seq<nat>): map<nat, nat> {
    if |globals| == 0 then map[]
    else IndexMap(globals[..|globals| - 1])[globals[|globals| - 1] := (|globals| - 1) % U16Range]
  }

  lemma {:induction false} IndexMapKeys(globals: seq<nat>, g: nat)
    ensures g in IndexMap(globals) <==> g in globals
  {
    if |globals| > 0 {
      var n := |globals| - 1;
      IndexMapKeys(globals[..n], g);
      assert globals == globals[..n] + [globals[n]];
    }
  }

  /** Without repeats and truncation, the map sends each global index back to its position. */
  lemma {:induction false} IndexMapPosition(globals: seq<nat>, g: nat)
    requires Distinct(globals) && |globals| <= U16Range && g in IndexMap(globals)
    ensures IndexMap(globals)[g] < |globals| && globals[IndexMap(globals)[g]] == g
  {
    var n := |globals| - 1;
    if globals[n] != g {
      IndexMapPosition(globals[..n], g);
    }
  }

  /**
   * `o` was built from the global indices `seg`; `globals` lists its
   * vertices' global indices in the order they were added, without repeats.
   * The map is the one those additions make, and every local index is the
   * map's entry for its global index.
   */
  ghost predicate Tracks<V>(vertices: seq<V>, o: Open<V>, globals: seq<nat>, seg: seq<nat>)
    requires forall l :: 0 <= l < |globals| ==> globals[l] < |vertices|
  {
    |globals| <= |seg| == |o.idx|
    && o.verts == Lookup(vertices, globals)
    && o.vmap == IndexMap(globals)
    && Distinct(globals)
    && (forall j :: 0 <= j < |seg| ==> seg[j] in o.vmap && o.idx[j] == o.vmap[seg[j]])
  }

  /** The global indices recorded after adding `g`. */
  function Recorded<V>(o: Open<V>, globals: seq<nat>, g: nat): seq<nat> {
    if g in o.vmap then globals else globals + [g]
  }

  lemma AddVertexTracks<V>(vertices: seq<V>, o: Open<V>, globals: seq<nat>, seg: seq<nat>, g: nat)
    requires g < |vertices| && (forall l :: 0 <= l < |globals| ==> globals[l] < |vertices|)
    requires Tracks(vertices, o, globals, seg)
    ensures forall l :: 0 <= l < |Recorded(o, globals, g)| ==> Recorded(o, globals, g)[l] < |vertices|
    ensures Tracks(vertices, AddVertex(vertices, o, g), Recorded(o, globals, g), seg + [g])
  {
    var r := AddVertex(vertices, o, g);
    var gs := Recorded(o, globals, g);
    var s2 := seg + [g];
    if g !in o.vmap {
      IndexMapKeys(globals, g);
      assert gs[..|gs| - 1] == globals;
      assert r.verts == Lookup(vertices, gs);
    }
    forall j | 0 <= j < |s2|
      ensures s2[j] in r.vmap && r.idx[j] == r.vmap[s2[j]]
    {
      if j < |seg| {
        assert s2[j] == seg[j];
      }
    }
  }

  /** An index can only be recorded after its vertex. */
  lemma IndicesNeedVertices<V>(vertices: seq<V>, o: Open<V>, globals: seq<nat>, seg: seq<nat>)
    requires forall l :: 0 <= l < |globals| ==> globals[l] < |vertices|
    requires Tracks(vertices, o, globals, seg)
    ensures |seg| > 0 ==> |o.verts| > 0
    ensures |o.verts| == 0 ==> |o.idx| == 0
  {
    if |seg| > 0 {
      IndexMapKeys(globals, seg[0]);
    }
  }

  // ---------------------------------------------------------------------
  // A closed patch

  /** Every local index is in range and names the vertex its global index names. */
  ghost predicate Faithful<V>(vertices: seq<V>, p: RawPatch<V>, seg: seq<nat>)
    requires forall j :: 0 <= j < |seg| ==> seg[j] < |vertices|
  {
    |p.indices| == |seg|
    && forall j :: 0 <= j < |seg| ==> p.indices[j] < |p.vertices| && p.vertices[p.indices[j]] == vertices[seg[j]]
  }

  /** When no more than 65536 vertices were added, no local index was truncated. */
  lemma TracksFaithful<V>(vertices: seq<V>, o: Open<V>, globals: seq<nat>, seg: seq<nat>, k: nat)
    requires forall l :: 0 <= l < |globals| ==> globals[l] < |vertices|
    requires Tracks(vertices, o, globals, seg) && |globals| <= U16Range
    requires forall j :: 0 <= j < |seg| ==> seg[j] < |vertices|
    ensures Faithful(vertices, RawPatch(o.verts, o.idx, k), seg)
  {
    forall j | 0 <= j < |seg|
      ensures o.idx[j] < |o.verts| && o.verts[o.idx[j]] == vertices[seg[j]]
    {
      IndexMapPosition(globals, seg[j]);
    }
  }

  /** Distinct input vertices stay distinct inside a patch. */
  lemma TracksDistinct<V>(vertices: seq<V>, o: Open<V>, globals: seq<nat>, seg: seq<nat>)
    requires forall l :: 0 <= l < |globals| ==> globals[l] < |vertices|
    requires Tracks(vertices, o, globals, seg) && Distinct(vertices)
    ensures Distinct(o.verts)
  {
  }

  // ---------------------------------------------------------------------
  // The loop's state

  /** The number of whole triangles' indices: trailing indices that do not make a triangle are ignored. */
  function Whole(n: nat): (m: nat)
    ensures m <= n && m % 3 == 0 && n - m < 3
  {
    n / 3 * 3
  }

  lemma WholeTriangles(n: nat)
    ensures Whole(n) == 3 * (n / 3)
  {
  }

  /** One more triangle keeps a count of whole triangles' indices whole. */
  lemma WholeStep(n: nat)
    requires n % 3 == 0
    ensures (n + 3) % 3 == 0
  {
  }

  function Concat(segs: seq<seq<nat>>): seq<nat> {
    if |segs| == 0 then [] else Concat(segs[..|segs| - 1]) + segs[|segs| - 1]
  }

  /** Every global index in every segment names an input vertex. */
  ghost predicate SegsInRange(n: nat, segs: seq<seq<nat>>) {
    forall k :: 0 <= k < |segs| ==> forall j :: 0 <= j < |segs[k]| ==> segs[k][j] < n
  }

  /** The closed patches, each built from its segment of the input. */
  ghost predicate ClosedOk<V>(vertices: seq<V>, patches: seq<RawPatch<V>>, segs: seq<seq<nat>>, maxVertices: nat, maxIndices: nat) {
    |patches| == |segs| && SegsInRange(|vertices|, segs)
    && (forall k :: 0 <= k < |patches| ==> patches[k].patchIndex == k && |patches[k].vertices| > 0)
    && (forall k :: 0 <= k < |patches| ==> |patches[k].indices| == |segs[k]| && |segs[k]| % 3 == 0 && |segs[k]| > 0)
    && (forall k :: 0 <= k < |patches| ==>
          |patches[k].vertices| <= Max(maxVertices, 3) && |patches[k].indices| <= Max(maxIndices, 3))
    && (Distinct(vertices) ==> forall k :: 0 <= k < |patches| ==> Distinct(patches[k].vertices))
    && (maxVertices <= U16Range ==> forall k :: 0 <= k < |patches| ==> Faithful(vertices, patches[k], segs[k]))
  }

  /** The open patch tracks `seg`, whose indices all name input vertices. */
  ghost predicate Inv<V>(vertices: seq<V>, o: Open<V>, globals: seq<nat>, seg: seq<nat>) {
    (forall l :: 0 <= l < |globals| ==> globals[l] < |vertices|)
    && Tracks(vertices, o, globals, seg)
    && (forall j :: 0 <= j < |seg| ==> seg[j] < |vertices|)
  }

  lemma AddVertexInv<V>(vertices: seq<V>, o: Open<V>, globals: seq<nat>, seg: seq<nat>, g: nat)
    requires g < |vertices| && Inv(vertices, o, globals, seg)
    ensures Inv(vertices, AddVertex(vertices, o, g), Recorded(o, globals, g), seg + [g])
  {
    AddVertexTracks(vertices, o, globals, seg, g);
  }

  /** The open patch, built from whole triangles of `seg`, within the limits. */
  ghost predicate OpenOk<V>(vertices: seq<V>, o: Open<V>, globals: seq<nat>, seg: seq<nat>,
                           maxVertices: nat, maxIndices: nat) {
    Inv(vertices, o, globals, seg) && |seg| % 3 == 0
    && |o.verts| <= Max(maxVertices, 3) && |o.idx| <= Max(maxIndices, 3)
  }

  lemma EmptyOk<V>(vertices: seq<V>, maxVertices: nat, maxIndices: nat)
    ensures OpenOk(vertices, Empty(), [], [], maxVertices, maxIndices)
  {
  }

  /** Closing a non-empty open patch appends a valid patch numbered by its position. */
  lemma CloseOk<V>(vertices: seq<V>, patches: seq<RawPatch<V>>, segs: seq<seq<nat>>, o: Open<V>,
                   globals: seq<nat>, seg: seq<nat>, maxVertices: nat, maxIndices: nat)
    requires ClosedOk(vertices, patches, segs, maxVertices, maxIndices)
    requires OpenOk(vertices, o, globals, seg, maxVertices, maxIndices) && |o.verts| > 0
    ensures ClosedOk(vertices, patches + [RawPatch(o.verts, o.idx, |patches|)], segs + [seg], maxVertices, maxIndices)
  {
    var ps, ss := patches + [RawPatch(o.verts, o.idx, |patches|)], segs + [seg];
    var n := |patches|;
    if maxVertices <= U16Range {
      TracksFaithful(vertices, o, globals, seg, n);
    }
    if Distinct(vertices) {
      TracksDistinct(vertices, o, globals, seg);
    }
    assert forall k :: 0 <= k < n ==> ps[k] == patches[k] && ss[k] == segs[k];
  }

  /** The global indices recorded after a whole triangle. */
  function TriangleGlobals<V>(vertices: seq<V>, o: Open<V>, globals: seq<nat>, i0: nat, i1: nat, i2: nat): seq<nat>
    requires i0 < |vertices| && i1 < |vertices|
  {
    var o1 := AddVertex(vertices, o, i0);
    Recorded(AddVertex(vertices, o1, i1), Recorded(o1, Recorded(o, globals, i0), i1), i2)
  }

  /** A triangle that does not force a close keeps the patch within the limits (or within one triangle). */
  lemma AddSizes<V>(vertices: seq<V>, o: Open<V>, maxVertices: nat, maxIndices: nat, i0: nat, i1: nat, i2: nat)
    requires i0 < |vertices| && i1 < |vertices| && i2 < |vertices|
    requires |o.verts| <= Max(maxVertices, 3) && |o.idx| <= Max(maxIndices, 3)
    requires |o.verts| == 0 ==> |o.idx| == 0
    requires !MustClose(o, i0, i1, i2, maxVertices, maxIndices)
    ensures |AddTriangle(vertices, o, i0, i1, i2).verts| <= Max(maxVertices, 3)
    ensures |AddTriangle(vertices, o, i0, i1, i2).idx| <= Max(maxIndices, 3)
  {
    AddTriangleGrowth(vertices, o, i0, i1, i2);
  }

  /** Adding a triangle to a patch it fits in (or to an empty one) keeps the open patch valid. */
  lemma AddOk<V>(vertices: seq<V>, o: Open<V>, globals: seq<nat>, seg: seq<nat>,
                 maxVertices: nat, maxIndices: nat, i0: nat, i1: nat, i2: nat)
    requires OpenOk(vertices, o, globals, seg, maxVertices, maxIndices)
    requires i0 < |vertices| && i1 < |vertices| && i2 < |vertices|
    requires !MustClose(o, i0, i1, i2, maxVertices, maxIndices)
    ensures OpenOk(vertices, AddTriangle(vertices, o, i0, i1, i2), TriangleGlobals(vertices, o, globals, i0, i1, i2),
                   seg + [i0] + [i1] + [i2], maxVertices, maxIndices)
  {
    var o' := AddTriangle(vertices, o, i0, i1, i2);
    var seg' := seg + [i0] + [i1] + [i2];
    assert |o'.verts| <= Max(maxVertices, 3) && |o'.idx| <= Max(maxIndices, 3) by {
      IndicesNeedVertices(vertices, o, globals, seg);
      AddSizes(vertices, o, maxVertices, maxIndices, i0, i1, i2);
    }
    assert Inv(vertices, o', TriangleGlobals(vertices, o, globals, i0, i1, i2), seg') by {
      AddTriangleInv(vertices, o, globals, seg, i0, i1, i2);
    }
    assert |seg'| == |seg| + 3;
    WholeStep(|seg|);
    OpenOkIntro(vertices, o', TriangleGlobals(vertices, o, globals, i0, i1, i2), seg', maxVertices, maxIndices);
  }

  lemma OpenOkIntro<V>(vertices: seq<V>, o: Open<V>, globals: seq<nat>, seg: seq<nat>,
                       maxVertices: nat, maxIndices: nat)
    requires Inv(vertices, o, globals, seg) && |seg| % 3 == 0
    requires |o.verts| <= Max(maxVertices, 3) && |o.idx| <= Max(maxIndices, 3)
    ensures OpenOk(vertices, o, globals, seg, maxVertices, maxIndices)
  {
  }

  lemma AddTriangleInv<V>(vertices: seq<V>, o: Open<V>, globals: seq<nat>, seg: seq<nat>, i0: nat, i1: nat, i2: nat)
    requires Inv(vertices, o, globals, seg)
    requires i0 < |vertices| && i1 < |vertices| && i2 < |vertices|
    ensures Inv(vertices, AddTriangle(vertices, o, i0, i1, i2), TriangleGlobals(vertices, o, globals, i0, i1, i2),
                seg + [i0] + [i1] + [i2])
  {
    var o1 := AddVertex(vertices, o, i0);
    var g1 := Recorded(o, globals, i0);
    AddVertexInv(vertices, o, globals, seg, i0);
    var o2 := AddVertex(vertices, o1, i1);
    var g2 := Recorded(o1, g1, i1);
    AddVertexInv(vertices, o1, g1, seg + [i0], i1);
    AddVertexInv(vertices, o2, g2, seg + [i0] + [i1], i2);
  }

  // ---------------------------------------------------------------------
  // The greedy rule, for any way of growing a patch

  /**
   * What the greedy rule needs to know about a patch: the empty patch, how
   * one triangle grows a patch, and whether a triangle forces a patch to
   * close. The rule and its uniqueness are stated over these alone.
   */
  datatype Rule<!S> = Rule(start: S, step: (S, nat, nat, nat) -> S, closes: (S, nat, nat, nat) -> bool)

  /** The patch that adding the whole triangles of `seg`, in order, to the empty patch grows. */
  function Run<S>(r: Rule<S>, seg: seq<nat>): S
    decreases |seg|
  {
    if |seg| < 3 then r.start
    else
      var n := |seg| - 3;
      r.step(Run(r, seg[..n]), seg[n], seg[n + 1], seg[n + 2])
  }

  lemma RunAppend<S>(r: Rule<S>, seg: seq<nat>, i0: nat, i1: nat, i2: nat)
    ensures Run(r, seg + [i0] + [i1] + [i2]) == r.step(Run(r, seg), i0, i1, i2)
  {
    var s := seg + [i0] + [i1] + [i2];
    assert s[..|seg|] == seg;
  }

  /**
   * A non-empty run of whole triangles, each fitting the patch the
   * triangles before it grew: none of them forced a close. (The first
   * triangle is never asked: it opens the patch.)
   */
  ghost predicate Fills<S>(r: Rule<S>, seg: seq<nat>)
    decreases |seg|
  {
    |seg| >= 3 && |seg| % 3 == 0
    && (|seg| > 3 ==>
          var n := |seg| - 3;
          Fills(r, seg[..n]) && !r.closes(Run(r, seg[..n]), seg[n], seg[n + 1], seg[n + 2]))
  }

  /** The first triangle of segment `k + 1` would overflow the patch segment `k` grew. */
  ghost predicate Overflows<S>(r: Rule<S>, segs: seq<seq<nat>>, k: nat)
    requires k + 1 < |segs|
  {
    |segs[k + 1]| >= 3 && r.closes(Run(r, segs[k]), segs[k + 1][0], segs[k + 1][1], segs[k + 1][2])
  }

  /**
   * The greedy rule: every segment fills its patch, and every patch but the
   * last was closed only because the next triangle would have overflowed it.
   */
  ghost predicate Greedy<S>(r: Rule<S>, segs: seq<seq<nat>>) {
    (forall k :: 0 <= k < |segs| ==> Fills(r, segs[k]))
    && (forall k: nat :: k + 1 < |segs| ==> Overflows(r, segs, k))
  }

  /** The loop's segments so far: the closed ones and the open one, greedy once anything is open. */
  ghost predicate GreedySoFar<S>(r: Rule<S>, segs: seq<seq<nat>>, seg: seq<nat>) {
    if |seg| == 0 then |segs| == 0 else Greedy(r, segs + [seg])
  }

  /** A triangle that fits extends a segment that fills its patch. */
  lemma FillsExtend<S>(r: Rule<S>, seg: seq<nat>, i0: nat, i1: nat, i2: nat)
    requires Fills(r, seg) && !r.closes(Run(r, seg), i0, i1, i2)
    ensures Fills(r, seg + [i0] + [i1] + [i2])
  {
    var s := seg + [i0] + [i1] + [i2];
    assert s[..|seg|] == seg;
    assert s[|seg|] == i0 && s[|seg| + 1] == i1 && s[|seg| + 2] == i2;
  }

  /** Closing the open patch before a triangle that overflows it keeps the split greedy. */
  lemma GreedyClose<S>(r: Rule<S>, segs: seq<seq<nat>>, seg: seq<nat>, i0: nat, i1: nat, i2: nat)
    requires |seg| > 0 && GreedySoFar(r, segs, seg)
    requires r.closes(Run(r, seg), i0, i1, i2)
    ensures GreedySoFar(r, segs + [seg], [] + [i0] + [i1] + [i2])
  {
    var t := [] + [i0] + [i1] + [i2];
    var s, s' := segs + [seg], segs + [seg] + [t];
    assert Fills(r, t);
    assert forall k :: 0 <= k < |s| ==> s'[k] == s[k];
    forall k: nat | k + 1 < |s'|
      ensures Overflows(r, s', k)
    {
      if k + 1 < |s| {
        assert Overflows(r, s, k);
      }
    }
  }

  /** Adding a triangle that fits to the open patch keeps the split greedy. */
  lemma GreedyFit<S>(r: Rule<S>, segs: seq<seq<nat>>, seg: seq<nat>, i0: nat, i1: nat, i2: nat)
    requires |seg| % 3 == 0 && GreedySoFar(r, segs, seg)
    requires |seg| > 0 ==> !r.closes(Run(r, seg), i0, i1, i2)
    ensures GreedySoFar(r, segs, seg + [i0] + [i1] + [i2])
  {
    var t := seg + [i0] + [i1] + [i2];
    var s, s' := segs + [seg], segs + [t];
    assert s[|segs|] == seg;
    assert forall k :: 0 <= k < |segs| ==> s'[k] == segs[k] == s[k];
    if |seg| == 0 {
      assert Fills(r, t);
    } else {
      assert Fills(r, seg);
      FillsExtend(r, seg, i0, i1, i2);
    }
    forall k: nat | k + 1 < |s'|
      ensures Overflows(r, s', k)
    {
      assert Overflows(r, s, k);
      assert s'[k + 1][..3] == s[k + 1][..3];
    }
  }

  // ---------------------------------------------------------------------
  // The greedy rule determines the split

  /** `Concat`, peeled from the front. */
  lemma {:induction false} ConcatFront(segs: seq<seq<nat>>)
    requires |segs| > 0
    ensures Concat(segs) == segs[0] + Concat(segs[1..])
  {
    var n := |segs| - 1;
    if n == 0 {
      assert segs[..0] == [] && segs[1..] == [];
    } else {
      ConcatFront(segs[..n]);
      assert segs[..n][1..] == segs[1..][..n - 1];
      assert segs[1..][n - 1] == segs[n];
    }
  }

  /** A greedy split is empty exactly when there are no triangles. */
  lemma GreedyEmpty<S>(r: Rule<S>, segs: seq<seq<nat>>)
    requires Greedy(r, segs)
    ensures |segs| == 0 <==> |Concat(segs)| == 0
  {
    if |segs| > 0 {
      ConcatFront(segs);
      assert Fills(r, segs[0]);
    }
  }

  /** The greedy rule holds of every suffix of a greedy split. */
  lemma GreedyTail<S>(r: Rule<S>, segs: seq<seq<nat>>)
    requires |segs| > 0 && Greedy(r, segs)
    ensures Greedy(r, segs[1..])
  {
    var t := segs[1..];
    assert forall k :: 0 <= k < |t| ==> t[k] == segs[k + 1];
    forall k: nat | k + 1 < |t|
      ensures Overflows(r, t, k)
    {
      assert Overflows(r, segs, k + 1);
    }
  }

  /** In a segment that fills its patch, the triangle after any non-empty whole-triangle prefix fits the patch that prefix grew. */
  lemma {:induction false} FitsAfter<S>(r: Rule<S>, seg: seq<nat>, prefix: seq<nat>)
    requires Fills(r, seg)
    requires |prefix| > 0 && |prefix| % 3 == 0 && |prefix| + 3 <= |seg| && seg[..|prefix|] == prefix
    ensures !r.closes(Run(r, prefix), seg[|prefix|], seg[|prefix| + 1], seg[|prefix| + 2])
    decreases |seg|
  {
    var n := |seg| - 3;
    if |prefix| < n {
      var shorter := seg[..n];
      assert shorter[..|prefix|] == prefix;
      NextTriangle(|prefix|, n);
      FitsAfter(r, shorter, prefix);
      assert shorter[|prefix|] == seg[|prefix|] && shorter[|prefix| + 1] == seg[|prefix| + 1] && shorter[|prefix| + 2] == seg[|prefix| + 2];
    } else {
      assert seg[..n] == prefix;
    }
  }

  lemma NextTriangle(x: nat, y: nat)
    requires x % 3 == 0 && y % 3 == 0 && x < y
    ensures x + 3 <= y
  {
    assert x == 3 * (x / 3) && y == 3 * (y / 3);
  }

  /** When another split's first segment runs past this one's, it holds the first triangle of this one's second segment. */
  lemma FrontsAlign(a: seq<seq<nat>>, b: seq<seq<nat>>)
    requires |a| > 1 && |b| > 0 && Concat(a) == Concat(b)
    requires |a[1]| >= 3 && |a[0]| + 3 <= |b[0]|
    ensures b[0][..|a[0]|] == a[0]
    ensures b[0][|a[0]|] == a[1][0] && b[0][|a[0]| + 1] == a[1][1] && b[0][|a[0]| + 2] == a[1][2]
  {
    var n := |a[0]|;
    var flat := Concat(a);
    ConcatFront(a);
    ConcatFront(b);
    ConcatFront(a[1..]);
    assert a[1..][0] == a[1];
    assert flat[..n] == a[0] && flat[..n] == b[0][..n];
    assert flat[n] == a[1][0] == b[0][n];
    assert flat[n + 1] == a[1][1] == b[0][n + 1];
    assert flat[n + 2] == a[1][2] == b[0][n + 2];
  }

  /** The first patch of a greedy split is no shorter than the first patch of any other. */
  lemma FirstNotShorter<S>(r: Rule<S>, a: seq<seq<nat>>, b: seq<seq<nat>>)
    requires |a| > 0 && |b| > 0 && Greedy(r, a) && Greedy(r, b) && Concat(a) == Concat(b)
    ensures |a[0]| >= |b[0]|
  {
    if |a[0]| < |b[0]| {
      LongerFirstOverflows(r, a, b);
      FitsAfter(r, b[0], a[0]);
      assert false;
    }
  }

  /** A first segment longer than a greedy split's first holds the triangle that overflowed that split's first patch. */
  lemma LongerFirstOverflows<S>(r: Rule<S>, a: seq<seq<nat>>, b: seq<seq<nat>>)
    requires |a| > 0 && |b| > 0 && Greedy(r, a) && Greedy(r, b) && Concat(a) == Concat(b)
    requires |a[0]| < |b[0]|
    ensures Fills(r, b[0]) && |a[0]| > 0 && |a[0]| % 3 == 0 && |a[0]| + 3 <= |b[0]| && b[0][..|a[0]|] == a[0]
    ensures r.closes(Run(r, a[0]), b[0][|a[0]|], b[0][|a[0]| + 1], b[0][|a[0]| + 2])
  {
    assert |a| > 1 by {
      ConcatFront(a);
      ConcatFront(b);
    }
    assert Overflows(r, a, 0);
    assert Fills(r, a[0]) && Fills(r, b[0]);
    NextTriangle(|a[0]|, |b[0]|);
    FrontsAlign(a, b);
  }

  /** The greedy rule determines the split: two greedy splits of the same triangles are the same split. */
  lemma {:induction false} GreedyUnique<S>(r: Rule<S>, a: seq<seq<nat>>, b: seq<seq<nat>>)
    requires Greedy(r, a) && Greedy(r, b) && Concat(a) == Concat(b)
    ensures a == b
    decreases |a|
  {
    GreedyEmpty(r, a);
    GreedyEmpty(r, b);
    if |a| > 0 {
      FirstNotShorter(r, a, b);
      FirstNotShorter(r, b, a);
      ConcatFront(a);
      ConcatFront(b);
      assert a[0] == Concat(a)[..|a[0]|] == b[0];
      assert Concat(a[1..]) == Concat(a)[|a[0]|..] == Concat(b[1..]);
      GreedyTail(r, a);
      GreedyTail(r, b);
      GreedyUnique(r, a[1..], b[1..]);
      assert a == [a[0]] + a[1..];
      assert b == [b[0]] + b[1..];
    }
  }

  // ---------------------------------------------------------------------
  // The mesh splitter's rule

  /**
   * The splitter's patches: a triangle adds its three vertices, and a
   * triangle forces a close when `MustClose` says so. A triangle naming a
   * vertex that does not exist adds nothing; the split never meets one.
   */
  function Patching<V>(vertices: seq<V>, maxVertices: nat, maxIndices: nat): Rule<Open<V>> {
    Rule(Empty(),
         (o: Open<V>, i0: nat, i1: nat, i2: nat) =>
           if i0 < |vertices| && i1 < |vertices| && i2 < |vertices| then AddTriangle(vertices, o, i0, i1, i2) else o,
         (o: Open<V>, i0: nat, i1: nat, i2: nat) => MustClose(o, i0, i1, i2, maxVertices, maxIndices))
  }

  /** The patch the split builds from `seg`. */
  function Build<V>(vertices: seq<V>, seg: seq<nat>, maxVertices: nat, maxIndices: nat): Open<V> {
    Run(Patching(vertices, maxVertices, maxIndices), seg)
  }

  /** A triangle of existing vertices grows the built patch by `AddTriangle`. */
  lemma BuildAppend<V>(vertices: seq<V>, seg: seq<nat>, maxVertices: nat, maxIndices: nat, i0: nat, i1: nat, i2: nat)
    requires i0 < |vertices| && i1 < |vertices| && i2 < |vertices|
    ensures Build(vertices, seg + [i0] + [i1] + [i2], maxVertices, maxIndices)
         == AddTriangle(vertices, Build(vertices, seg, maxVertices, maxIndices), i0, i1, i2)
  {
    RunAppend(Patching(vertices, maxVertices, maxIndices), seg, i0, i1, i2);
  }

  /** Each closed patch holds exactly what its segment builds. */
  ghost predicate Built<V>(vertices: seq<V>, patches: seq<RawPatch<V>>, segs: seq<seq<nat>>, maxVertices: nat, maxIndices: nat) {
    |patches| == |segs|
    && forall k :: 0 <= k < |patches| ==>
      patches[k].vertices == Build(vertices, segs[k], maxVertices, maxIndices).verts
      && patches[k].indices == Build(vertices, segs[k], maxVertices, maxIndices).idx
  }

  /** Closing the open patch built from `seg` appends a patch holding what `seg` builds. */
  lemma BuiltClose<V>(vertices: seq<V>, patches: seq<RawPatch<V>>, segs: seq<seq<nat>>, seg: seq<nat>,
                      maxVertices: nat, maxIndices: nat, o: Open<V>)
    requires Built(vertices, patches, segs, maxVertices, maxIndices) && o == Build(vertices, seg, maxVertices, maxIndices)
    ensures Built(vertices, patches + [RawPatch(o.verts, o.idx, |patches|)], segs + [seg], maxVertices, maxIndices)
  {
    var ps, ss := patches + [RawPatch(o.verts, o.idx, |patches|)], segs + [seg];
    assert forall k :: 0 <= k < |patches| ==> ps[k] == patches[k] && ss[k] == segs[k];
  }

  // ---------------------------------------------------------------------
  // The source's own split examples, with stand-in vertex data

  /** Four vertices: the triangles 0-1-2 and 1-3-2 share the edge 1-2. */
  const Quad: seq<nat> := [10, 11, 12, 13]

  const QuadIndices: seq<nat> := [0, 1, 2, 1, 3, 2]

  /** Two triangles that share nothing. */
  const Six: seq<nat> := [20, 21, 22, 23, 24, 25]

  const SixIndices: seq<nat> := [0, 1, 2, 3, 4, 5]

  /** A one-triangle segment builds what adding that triangle to an empty patch builds. */
  lemma BuildOne<V>(vertices: seq<V>, maxVertices: nat, maxIndices: nat, i0: nat, i1: nat, i2: nat)
    requires i0 < |vertices| && i1 < |vertices| && i2 < |vertices|
    ensures Build(vertices, [i0, i1, i2], maxVertices, maxIndices) == AddTriangle(vertices, Empty(), i0, i1, i2)
  {
    var none: seq<nat> := [];
    BuildAppend(vertices, none, maxVertices, maxIndices, i0, i1, i2);
    assert none + [i0] + [i1] + [i2] == [i0, i1, i2];
  }

  /** A first triangle of three distinct vertices makes a patch of those three. */
  lemma FirstTriangle<V>(vertices: seq<V>, i0: nat, i1: nat, i2: nat)
    requires i0 < |vertices| && i1 < |vertices| && i2 < |vertices| && i0 != i1 && i1 != i2 && i0 != i2
    ensures |AddTriangle(vertices, Empty(), i0, i1, i2).verts| == 3
    ensures |AddTriangle(vertices, Empty(), i0, i1, i2).idx| == 3
    ensures AddTriangle(vertices, Empty(), i0, i1, i2).vmap.Keys == {i0, i1, i2}
  {
    var o1 := AddVertex(vertices, Empty(), i0);
    assert o1.vmap.Keys == {i0};
    var o2 := AddVertex(vertices, o1, i1);
    assert o2.vmap.Keys == {i0, i1};
  }

  /** The quad's first triangle builds three vertices; the second adds only vertex 3. */
  lemma QuadBuild(maxVertices: nat, maxIndices: nat)
    ensures |Build(Quad, QuadIndices[..3], maxVertices, maxIndices).verts| == 3
    ensures Build(Quad, QuadIndices[..3], maxVertices, maxIndices).vmap.Keys == {0, 1, 2}
    ensures |Build(Quad, QuadIndices, maxVertices, maxIndices).verts| == 4
    ensures |Build(Quad, QuadIndices, maxVertices, maxIndices).idx| == 6
  {
    assert QuadIndices[..3] == [0, 1, 2];
    BuildOne(Quad, maxVertices, maxIndices, 0, 1, 2);
    FirstTriangle(Quad, 0, 1, 2);
    BuildAppend(Quad, [0, 1, 2], maxVertices, maxIndices, 1, 3, 2);
    assert [0, 1, 2] + [1] + [3] + [2] == QuadIndices;
    var o := AddTriangle(Quad, Empty(), 0, 1, 2);
    var o1 := AddVertex(Quad, o, 1);
    assert |o1.verts| == 3 && o1.vmap.Keys == {0, 1, 2};
    var o2 := AddVertex(Quad, o1, 3);
    assert |o2.verts| == 4 && o2.vmap.Keys == {0, 1, 2, 3};
  }

  /** Two single-triangle segments, the second overflowing the patch the first built, split greedily. */
  lemma GreedyPair<V>(vertices: seq<V>, a0: nat, a1: nat, a2: nat, b0: nat, b1: nat, b2: nat,
                      maxVertices: nat, maxIndices: nat)
    requires a0 < |vertices| && a1 < |vertices| && a2 < |vertices|
    requires MustClose(AddTriangle(vertices, Empty(), a0, a1, a2), b0, b1, b2, maxVertices, maxIndices)
    ensures Greedy(Patching(vertices, maxVertices, maxIndices), [[a0, a1, a2], [b0, b1, b2]])
    ensures Concat([[a0, a1, a2], [b0, b1, b2]]) == [a0, a1, a2, b0, b1, b2]
  {
    var r := Patching(vertices, maxVertices, maxIndices);
    var a, b := [a0, a1, a2], [b0, b1, b2];
    var two: seq<seq<nat>> := [a, b];
    BuildOne(vertices, maxVertices, maxIndices, a0, a1, a2);
    assert r.closes(Run(r, a), b0, b1, b2);
    assert Overflows(r, two, 0);
    var one: seq<seq<nat>> := [a];
    assert two[..1] == one && one[..0] == [];
    assert Concat(two) == Concat(one) + b == a + b;
  }

  /** Limits 16 and 32 let the quad's second triangle join the first's patch. */
  lemma QuadGreedy()
    ensures Greedy(Patching(Quad, 16, 32), [QuadIndices])
    ensures Concat([QuadIndices]) == QuadIndices
  {
    var r := Patching(Quad, 16, 32);
    var one: seq<seq<nat>> := [QuadIndices];
    QuadBuild(16, 32);
    assert !r.closes(Run(r, QuadIndices[..3]), 1, 3, 2);
    assert Fills(r, QuadIndices[..3]);
    assert Fills(r, QuadIndices);
    assert Concat(one) == QuadIndices by {
      assert one[..0] == [];
    }
  }

  /** With limits 16 and 32 the two triangles of the quad share one patch of four vertices and six indices. */
  lemma SharedEdgeOnePatch(patches: seq<RawPatch<nat>>, segs: seq<seq<nat>>)
    requires Concat(segs) == QuadIndices
    requires Built(Quad, patches, segs, 16, 32) && Greedy(Patching(Quad, 16, 32), segs)
    ensures |patches| == 1 && |patches[0].vertices| == 4 && |patches[0].indices| == 6
  {
    QuadGreedy();
    GreedyUnique(Patching(Quad, 16, 32), segs, [QuadIndices]);
    QuadBuild(16, 32);
  }

  /** With an index limit of 3 each triangle of the quad gets its own patch of three vertices. */
  lemma SharedEdgeIndexLimit(patches: seq<RawPatch<nat>>, segs: seq<seq<nat>>)
    requires Concat(segs) == QuadIndices
    requires Built(Quad, patches, segs, 16, 3) && Greedy(Patching(Quad, 16, 3), segs)
    ensures |patches| == 2 && |patches[0].vertices| == 3 && |patches[1].vertices| == 3
  {
    FirstTriangle(Quad, 0, 1, 2);
    FirstTriangle(Quad, 1, 3, 2);
    GreedyPair(Quad, 0, 1, 2, 1, 3, 2, 16, 3);
    GreedyUnique(Patching(Quad, 16, 3), segs, [[0, 1, 2], [1, 3, 2]]);
    BuildOne(Quad, 16, 3, 0, 1, 2);
    BuildOne(Quad, 16, 3, 1, 3, 2);
  }

  /** With a vertex limit of 3 two triangles that share nothing take two patches of three vertices. */
  lemma DisjointVertexLimit(patches: seq<RawPatch<nat>>, segs: seq<seq<nat>>)
    requires Concat(segs) == SixIndices
    requires Built(Six, patches, segs, 3, 32) && Greedy(Patching(Six, 3, 32), segs)
    ensures |patches| == 2 && |patches[0].vertices| == 3 && |patches[1].vertices| == 3
  {
    FirstTriangle(Six, 0, 1, 2);
    FirstTriangle(Six, 3, 4, 5);
    GreedyPair(Six, 0, 1, 2, 3, 4, 5, 3, 32);
    GreedyUnique(Patching(Six, 3, 32), segs, [[0, 1, 2], [3, 4, 5]]);
    BuildOne(Six, 3, 32, 0, 1, 2);
    BuildOne(Six, 3, 32, 3, 4, 5);
  }

  // ---------------------------------------------------------------------
  // The whole split

  /** The patches' vertices as their indices name them, patch after patch. */
  function ExpandAll<V>(patches: seq<RawPatch<V>>): seq<V>
    requires forall k :: 0 <= k < |patches| ==> forall j :: 0 <= j < |patches[k].indices| ==>
      patches[k].indices[j] < |patches[k].vertices|
  {
    if |patches| == 0 then []
    else
      var p := patches[|patches| - 1];
      ExpandAll(patches[..|patches| - 1]) + Lookup(p.vertices, p.indices)
  }

  function TotalIndices<V>(patches: seq<RawPatch<V>>): nat {
    if |patches| == 0 then 0 else TotalIndices(patches[..|patches| - 1]) + |patches[|patches| - 1].indices|
  }

  lemma {:induction false} ConcatInRange(n: nat, segs: seq<seq<nat>>)
    requires SegsInRange(n, segs)
    ensures forall j :: 0 <= j < |Concat(segs)| ==> Concat(segs)[j] < n
  {
    if |segs| > 0 {
      ConcatInRange(n, segs[..|segs| - 1]);
    }
  }

  lemma LookupAppend<V>(vertices: seq<V>, a: seq<nat>, b: seq<nat>)
    requires forall j :: 0 <= j < |a| ==> a[j] < |vertices|
    requires forall j :: 0 <= j < |b| ==> b[j] < |vertices|
    ensures forall j :: 0 <= j < |a + b| ==> (a + b)[j] < |vertices|
    ensures Lookup(vertices, a + b) == Lookup(vertices, a) + Lookup(vertices, b)
  {
  }

  /** Faithful patches over consecutive segments expand to the vertices those segments name. */
  lemma {:induction false} ExpandAllConcat<V>(vertices: seq<V>, patches: seq<RawPatch<V>>, segs: seq<seq<nat>>)
    requires |patches| == |segs| && SegsInRange(|vertices|, segs)
    requires forall k :: 0 <= k < |patches| ==> Faithful(vertices, patches[k], segs[k])
    ensures forall k :: 0 <= k < |patches| ==> forall j :: 0 <= j < |patches[k].indices| ==>
      patches[k].indices[j] < |patches[k].vertices|
    ensures forall j :: 0 <= j < |Concat(segs)| ==> Concat(segs)[j] < |vertices|
    ensures ExpandAll(patches) == Lookup(vertices, Concat(segs))
  {
    ConcatInRange(|vertices|, segs);
    if |segs| > 0 {
      var n := |segs| - 1;
      ExpandAllConcat(vertices, patches[..n], segs[..n]);
      var p, s := patches[n], segs[n];
      ConcatInRange(|vertices|, segs[..n]);
      LookupAppend(vertices, Concat(segs[..n]), s);
      assert Lookup(p.vertices, p.indices) == Lookup(vertices, s);
    }
  }

  lemma {:induction false} TotalIndicesConcat<V>(patches: seq<RawPatch<V>>, segs: seq<seq<nat>>)
    requires |patches| == |segs|
    requires forall k :: 0 <= k < |patches| ==> |patches[k].indices| == |segs[k]|
    ensures TotalIndices(patches) == |Concat(segs)|
  {
    if |segs| > 0 {
      TotalIndicesConcat(patches[..|segs| - 1], segs[..|segs| - 1]);
    }
  }

  lemma ConcatClose(segs: seq<seq<nat>>, seg: seq<nat>)
    ensures Concat(segs + [seg]) + [] == Concat(segs) + seg
  {
    assert (segs + [seg])[..|segs|] == segs;
  }

  /** One more whole triangle of input extends the covered prefix. */
  lemma PrefixAdvance(indices: seq<nat>, t: nat, segs: seq<seq<nat>>, seg: seq<nat>)
    requires 3 * t + 3 <= |indices| && Concat(segs) + seg == indices[..3 * t]
    ensures Concat(segs) + (seg + [indices[3 * t]] + [indices[3 * t + 1]] + [indices[3 * t + 2]])
         == indices[..3 * (t + 1)]
  {
    assert indices[..3 * (t + 1)] == indices[..3 * t] + [indices[3 * t]] + [indices[3 * t + 1]] + [indices[3 * t + 2]];
  }

  /**
   * split_into_patches. Patches are numbered 0, 1, 2, … and none is empty;
   * they hold every whole triangle's indices, and expanding each patch's local
   * indices gives back the input vertices in input order. No patch repeats a
   * vertex, and with both limits at least 3 every patch stays within them.
   * Local indices are `u16`: the expansion is promised when `maxVertices`
   * leaves them untruncated.
   */
  method SplitIntoPatches<V>(vertices: seq<V>, indices: seq<nat>, maxVertices: nat, maxIndices: nat)
    returns (patches: seq<RawPatch<V>>, ghost segs: seq<seq<nat>>)
    requires forall i :: 0 <= i < Whole(|indices|) ==> indices[i] < |vertices|
    ensures forall k :: 0 <= k < |patches| ==> patches[k].patchIndex == k && |patches[k].vertices| > 0
    ensures forall k :: 0 <= k < |patches| ==> |patches[k].indices| % 3 == 0 && |patches[k].indices| > 0
    ensures TotalIndices(patches) == Whole(|indices|)
    ensures Distinct(vertices) ==> forall k :: 0 <= k < |patches| ==> Distinct(patches[k].vertices)
    ensures forall k :: 0 <= k < |patches| ==>
      |patches[k].vertices| <= Max(maxVertices, 3) && |patches[k].indices| <= Max(maxIndices, 3)
    ensures maxVertices <= U16Range ==>
      (forall k :: 0 <= k < |patches| ==> forall j :: 0 <= j < |patches[k].indices| ==>
         patches[k].indices[j] < |patches[k].vertices|)
      && ExpandAll(patches) == Lookup(vertices, indices[..Whole(|indices|)])
    ensures |segs| == |patches| && Concat(segs) == indices[..Whole(|indices|)] && SegsInRange(|vertices|, segs)
    ensures Built(vertices, patches, segs, maxVertices, maxIndices)
    ensures Greedy(Patching(vertices, maxVertices, maxIndices), segs)
  {
    var closedPatches, o;
    ghost var globals, seg, closed;
    closedPatches, o, globals, closed, seg := SplitLoop(vertices, indices, maxVertices, maxIndices);
    patches, segs := CloseLast(vertices, indices, maxVertices, maxIndices, closedPatches, o, globals, closed, seg);
    Finish(vertices, indices, patches, segs, maxVertices, maxIndices);
  }

  /** After the loop: the open patch, if it holds anything, is closed as the last patch. */
  method CloseLast<V>(vertices: seq<V>, indices: seq<nat>, maxVertices: nat, maxIndices: nat,
                      patches: seq<RawPatch<V>>, o: Open<V>,
                      ghost globals: seq<nat>, ghost segs: seq<seq<nat>>, ghost seg: seq<nat>)
    returns (patches': seq<RawPatch<V>>, ghost segs': seq<seq<nat>>)
    requires LoopInv(vertices, indices, |indices| / 3, maxVertices, maxIndices, patches, o, globals, segs, seg)
    ensures Concat(segs') == indices[..Whole(|indices|)]
    ensures ClosedOk(vertices, patches', segs', maxVertices, maxIndices) && Built(vertices, patches', segs', maxVertices, maxIndices)
    ensures Greedy(Patching(vertices, maxVertices, maxIndices), segs')
  {
    WholeTriangles(|indices|);
    if |o.verts| > 0 {
      CloseOk(vertices, patches, segs, o, globals, seg, maxVertices, maxIndices);
      ConcatClose(segs, seg);
      BuiltClose(vertices, patches, segs, seg, maxVertices, maxIndices, o);
      patches', segs' := patches + [RawPatch(o.verts, o.idx, |patches|)], segs + [seg];
    } else {
      IndicesNeedVertices(vertices, o, globals, seg);
      patches', segs' := patches, segs;
    }
  }

  /** Before the first triangle: nothing closed, nothing open. */
  lemma StartOk<V>(vertices: seq<V>, indices: seq<nat>, maxVertices: nat, maxIndices: nat)
    ensures LoopInv(vertices, indices, 0, maxVertices, maxIndices, [], Empty(), [], [], [])
  {
    EmptyOk(vertices, maxVertices, maxIndices);
  }

  /** The main loop: every whole triangle in order, closing a patch whenever the next triangle would overflow it. */
  method SplitLoop<V>(vertices: seq<V>, indices: seq<nat>, maxVertices: nat, maxIndices: nat)
    returns (patches: seq<RawPatch<V>>, o: Open<V>, ghost globals: seq<nat>, ghost segs: seq<seq<nat>>, ghost seg: seq<nat>)
    requires forall i :: 0 <= i < Whole(|indices|) ==> indices[i] < |vertices|
    ensures LoopInv(vertices, indices, |indices| / 3, maxVertices, maxIndices, patches, o, globals, segs, seg)
  {
    patches, o, globals, segs, seg := [], Empty(), [], [], [];
    StartOk(vertices, indices, maxVertices, maxIndices);
    var t := 0;
    while t < |indices| / 3
      invariant t <= |indices| / 3
      invariant LoopInv(vertices, indices, t, maxVertices, maxIndices, patches, o, globals, segs, seg)
    {
      patches, o, globals, segs, seg := Advance(vertices, indices, t, maxVertices, maxIndices, patches, o, globals, segs, seg);
      t := t + 1;
    }
  }

  /** What holds after the first `t` triangles. */
  ghost predicate LoopInv<V>(vertices: seq<V>, indices: seq<nat>, t: nat, maxVertices: nat, maxIndices: nat,
                             patches: seq<RawPatch<V>>, o: Open<V>, globals: seq<nat>, segs: seq<seq<nat>>, seg: seq<nat>)
    requires 3 * t <= |indices|
  {
    Concat(segs) + seg == indices[..3 * t]
    && ClosedOk(vertices, patches, segs, maxVertices, maxIndices)
    && OpenOk(vertices, o, globals, seg, maxVertices, maxIndices)
    && o == Build(vertices, seg, maxVertices, maxIndices) && Built(vertices, patches, segs, maxVertices, maxIndices)
    && GreedySoFar(Patching(vertices, maxVertices, maxIndices), segs, seg)
  }

  /** One triangle of the loop: close the open patch if the triangle would overflow it, then add the triangle. */
  method Advance<V>(vertices: seq<V>, indices: seq<nat>, t: nat, maxVertices: nat, maxIndices: nat,
                    patches: seq<RawPatch<V>>, o: Open<V>, ghost globals: seq<nat>, ghost segs: seq<seq<nat>>, ghost seg: seq<nat>)
    returns (patches': seq<RawPatch<V>>, o': Open<V>, ghost globals': seq<nat>, ghost segs': seq<seq<nat>>, ghost seg': seq<nat>)
    requires t < |indices| / 3 && forall i :: 0 <= i < Whole(|indices|) ==> indices[i] < |vertices|
    requires LoopInv(vertices, indices, t, maxVertices, maxIndices, patches, o, globals, segs, seg)
    ensures LoopInv(vertices, indices, t + 1, maxVertices, maxIndices, patches', o', globals', segs', seg')
  {
    var i0, i1, i2 := indices[3 * t], indices[3 * t + 1], indices[3 * t + 2];
    patches', o', globals', segs', seg' := patches, o, globals, segs, seg;
    if MustClose(o, i0, i1, i2, maxVertices, maxIndices) {
      CloseOk(vertices, patches, segs, o, globals, seg, maxVertices, maxIndices);
      ConcatClose(segs, seg);
      assert |seg| > 0;
      GreedyClose(Patching(vertices, maxVertices, maxIndices), segs, seg, i0, i1, i2);
      BuiltClose(vertices, patches, segs, seg, maxVertices, maxIndices, o);
      patches' := patches + [RawPatch(o.verts, o.idx, |patches|)];
      segs' := segs + [seg];
      o', globals', seg' := Empty(), [], [];
      EmptyOk(vertices, maxVertices, maxIndices);
    } else {
      GreedyFit(Patching(vertices, maxVertices, maxIndices), segs, seg, i0, i1, i2);
    }
    AddOk(vertices, o', globals', seg', maxVertices, maxIndices, i0, i1, i2);
    PrefixAdvance(indices, t, segs', seg');
    BuildAppend(vertices, seg', maxVertices, maxIndices, i0, i1, i2);
    globals' := TriangleGlobals(vertices, o', globals', i0, i1, i2);
    o' := AddTriangle(vertices, o', i0, i1, i2);
    seg' := seg' + [i0] + [i1] + [i2];
  }

  /** What the closed patches promise once they cover every whole triangle. */
  lemma Finish<V>(vertices: seq<V>, indices: seq<nat>, patches: seq<RawPatch<V>>, segs: seq<seq<nat>>,
                  maxVertices: nat, maxIndices: nat)
    requires ClosedOk(vertices, patches, segs, maxVertices, maxIndices)
    requires Concat(segs) == indices[..Whole(|indices|)]
    ensures TotalIndices(patches) == Whole(|indices|)
    ensures forall k :: 0 <= k < |patches| ==> |patches[k].indices| % 3 == 0 && |patches[k].indices| > 0
    ensures forall i :: 0 <= i < Whole(|indices|) ==> indices[i] < |vertices|
    ensures maxVertices <= U16Range ==>
      (forall k :: 0 <= k < |patches| ==> forall j :: 0 <= j < |patches[k].indices| ==>
         patches[k].indices[j] < |patches[k].vertices|)
      && ExpandAll(patches) == Lookup(vertices, indices[..Whole(|indices|)])
  {
    TotalIndicesConcat(patches, segs);
    ConcatInRange(|vertices|, segs);
    if maxVertices <= U16Range {
      ExpandAllConcat(vertices, patches, segs);
    }
  }

  // ---------------------------------------------------------------------
  // The structure-of-arrays blob

  /**
   * One vertex after quantization: eight 16-bit words, the signed ones
   * (normal, uv) as their two's-complement bits, which is what
   * `to_le_bytes` writes for an `i16`.
   */
  datatype Quantized = Quantized(px: U16, py: U16, pz: U16, nx: U16, ny: U16, nz: U16, u: U16, v: U16)

  const Attributes: nat := 8

  /** Attribute `a` of a vertex, in blob order: position x, y, z, normal x, y, z, u, v. */
  function Attr(q: Quantized, a: nat): U16
    requires a < Attributes
  {
    match a
    case 0 => q.px
    case 1 => q.py
    case 2 => q.pz
    case 3 => q.nx
    case 4 => q.ny
    case 5 => q.nz
    case 6 => q.u
    case _ => q.v
  }

  /** The words written one after another, each as its two little-endian bytes. */
  function Words(ws: seq<U16>): seq<U8> {
    if |ws| == 0 then [] else Words(ws[..|ws| - 1]) + Le16(ws[|ws| - 1])
  }

  /** The little-endian word at byte offset `off`. */
  function ReadU16(blob: seq<U8>, off: nat): U16
    requires off + 2 <= |blob|
  {
    Join16(blob[off], blob[off + 1])
  }

  /** Every word lands at twice its position and reads back unchanged. */
  lemma {:induction false} WordsRead(ws: seq<U16>)
    ensures |Words(ws)| == 2 * |ws|
    ensures forall i :: 0 <= i < |ws| ==> ReadU16(Words(ws), 2 * i) == ws[i]
  {
    if |ws| > 0 {
      var n := |ws| - 1;
      WordsRead(ws[..n]);
      var w := Words(ws);
      forall i | 0 <= i < |ws|
        ensures ReadU16(w, 2 * i) == ws[i]
      {
        if i < n {
          assert ReadU16(w, 2 * i) == ReadU16(Words(ws[..n]), 2 * i);
          assert ws[..n][i] == ws[i];
        }
      }
    }
  }

  /** One attribute of every vertex, in vertex order. */
  function Column(vs: seq<Quantized>, a: nat): (c: seq<U16>)
    requires a < Attributes
    ensures |c| == |vs|
  {
    seq(|vs|, k requires 0 <= k < |vs| => Attr(vs[k], a))
  }

  /** The word offset of column `a` when each column holds `n` words. */
  function Start(a: nat, n: nat): nat {
    if a == 0 then 0 else Start(a - 1, n) + n
  }

  lemma {:induction false} StartIsProduct(a: nat, n: nat)
    ensures Start(a, n) == a * n
  {
    if a > 0 {
      StartIsProduct(a - 1, n);
      assert a * n == (a - 1) * n + n;
    }
  }

  /** The columns of attributes 0, 1, …, `a - 1`, one after another. */
  function Columns(vs: seq<Quantized>, a: nat): (c: seq<U16>)
    requires a <= Attributes
    ensures |c| == Start(a, |vs|)
  {
    if a == 0 then [] else Columns(vs, a - 1) + Column(vs, a - 1)
  }

  /** Attribute `b` of vertex `k` sits at word `Start(b) + k` of every column run that includes column `b`. */
  lemma {:induction false} ColumnsAt(vs: seq<Quantized>, a: nat, b: nat, k: nat)
    requires b < a <= Attributes && k < |vs|
    ensures Start(b, |vs|) + k < |Columns(vs, a)| && Columns(vs, a)[Start(b, |vs|) + k] == Attr(vs[k], b)
  {
    if b < a - 1 {
      ColumnsAt(vs, a - 1, b, k);
      StartGrows(b, a - 1, |vs|);
    }
  }

  lemma {:induction false} StartGrows(b: nat, a: nat, n: nat)
    requires b < a
    ensures Start(b, n) + n <= Start(a, n)
  {
    if b < a - 1 {
      StartGrows(b, a - 1, n);
    }
  }

  /** pack_soa_blob, from already quantized vertices: the eight attribute columns, then the indices. */
  function PackSoaBlob(vs: seq<Quantized>, indices: seq<U16>): seq<U8> {
    Words(Columns(vs, Attributes) + indices)
  }

  /** The byte offset of attribute `a` of vertex `k` in a blob of `n` vertices: column `a`, row `k`. */
  function ColumnOffset(n: nat, a: nat, k: nat): nat {
    2 * (a * n + k)
  }

  /**
   * The blob is N×16 + M×2 bytes; attribute `a` of vertex `k` is the word at
   * offset 2(aN + k), and index `i` the word at offset 16N + 2i.
   */
  lemma PackSoaBlobLayout(vs: seq<Quantized>, indices: seq<U16>)
    ensures |PackSoaBlob(vs, indices)| == 16 * |vs| + 2 * |indices|
    ensures forall a: nat, k: nat :: 0 <= a < Attributes && 0 <= k < |vs| ==>
      ColumnOffset(|vs|, a, k) + 2 <= |PackSoaBlob(vs, indices)| &&
      ReadU16(PackSoaBlob(vs, indices), ColumnOffset(|vs|, a, k)) == Attr(vs[k], a)
    ensures forall i :: 0 <= i < |indices| ==>
      16 * |vs| + 2 * i + 2 <= |PackSoaBlob(vs, indices)| &&
      ReadU16(PackSoaBlob(vs, indices), 16 * |vs| + 2 * i) == indices[i]
  {
    BlobLength(vs, indices);
    ColumnsLayout(vs, indices);
    IndicesLayout(vs, indices);
  }

  lemma ColumnsLayout(vs: seq<Quantized>, indices: seq<U16>)
    ensures forall a: nat, k: nat :: 0 <= a < Attributes && 0 <= k < |vs| ==>
      ColumnOffset(|vs|, a, k) + 2 <= |PackSoaBlob(vs, indices)| &&
      ReadU16(PackSoaBlob(vs, indices), ColumnOffset(|vs|, a, k)) == Attr(vs[k], a)
  {
    var blob := PackSoaBlob(vs, indices);
    forall a: nat, k: nat | 0 <= a < Attributes && 0 <= k < |vs|
      ensures ColumnOffset(|vs|, a, k) + 2 <= |blob| && ReadU16(blob, ColumnOffset(|vs|, a, k)) == Attr(vs[k], a)
    {
      ColumnWord(vs, indices, a, k);
    }
  }

  lemma IndicesLayout(vs: seq<Quantized>, indices: seq<U16>)
    ensures forall i :: 0 <= i < |indices| ==>
      16 * |vs| + 2 * i + 2 <= |PackSoaBlob(vs, indices)| &&
      ReadU16(PackSoaBlob(vs, indices), 16 * |vs| + 2 * i) == indices[i]
  {
    forall i | 0 <= i < |indices|
      ensures 16 * |vs| + 2 * i + 2 <= |PackSoaBlob(vs, indices)| &&
        ReadU16(PackSoaBlob(vs, indices), 16 * |vs| + 2 * i) == indices[i]
    {
      IndexWord(vs, indices, i);
    }
  }

  lemma ColumnWord(vs: seq<Quantized>, indices: seq<U16>, a: nat, k: nat)
    requires a < Attributes && k < |vs|
    ensures ColumnOffset(|vs|, a, k) + 2 <= |PackSoaBlob(vs, indices)|
    ensures ReadU16(PackSoaBlob(vs, indices), ColumnOffset(|vs|, a, k)) == Attr(vs[k], a)
  {
    var cs := Columns(vs, Attributes);
    var ws := cs + indices;
    var n := |vs|;
    ColumnsAt(vs, Attributes, a, k);
    StartIsProduct(a, n);
    WordsRead(ws);
    assert ws[a * n + k] == cs[a * n + k];
  }

  /** The vertex whose attributes sit at position `k` of each of the eight columns. */
  function VertexAt(blob: seq<U8>, n: nat, k: nat): Quantized
    requires k < n && 16 * n <= |blob|
  {
    Quantized(ReadU16(blob, ColumnOffset(n, 0, k)), ReadU16(blob, ColumnOffset(n, 1, k)),
              ReadU16(blob, ColumnOffset(n, 2, k)), ReadU16(blob, ColumnOffset(n, 3, k)),
              ReadU16(blob, ColumnOffset(n, 4, k)), ReadU16(blob, ColumnOffset(n, 5, k)),
              ReadU16(blob, ColumnOffset(n, 6, k)), ReadU16(blob, ColumnOffset(n, 7, k)))
  }

  /** Read a blob back, given its vertex count: None when it is too short or its index part is odd. */
  function UnpackSoaBlob(blob: seq<U8>, n: nat): (r: Option<(seq<Quantized>, seq<U16>)>)
    ensures r.Some? <==> 16 * n <= |blob| && (|blob| - 16 * n) % 2 == 0
    ensures r.Some? ==> |r.value.0| == n && 16 * n + 2 * |r.value.1| == |blob|
  {
    if |blob| < 16 * n || (|blob| - 16 * n) % 2 != 0 then None
    else
      var m := (|blob| - 16 * n) / 2;
      Some((seq(n, k requires 0 <= k < n => VertexAt(blob, n, k)),
            seq(m, i requires 0 <= i < m => ReadU16(blob, 16 * n + 2 * i))))
  }

  /** Unpacking a packed blob with its vertex count gives back the vertices and indices. */
  lemma UnpackPackSoaBlob(vs: seq<Quantized>, indices: seq<U16>)
    ensures UnpackSoaBlob(PackSoaBlob(vs, indices), |vs|) == Some((vs, indices))
  {
    var blob := PackSoaBlob(vs, indices);
    var n := |vs|;
    BlobLength(vs, indices);
    var r := UnpackSoaBlob(blob, n);
    forall k | 0 <= k < n
      ensures VertexAt(blob, n, k) == vs[k]
    {
      UnpackVertex(vs, indices, k);
    }
    assert r.value.0 == vs;
    forall i | 0 <= i < |indices|
      ensures ReadU16(blob, 16 * n + 2 * i) == indices[i]
    {
      IndexWord(vs, indices, i);
    }
    assert r.value.1 == indices;
  }

  lemma BlobLength(vs: seq<Quantized>, indices: seq<U16>)
    ensures |PackSoaBlob(vs, indices)| == 16 * |vs| + 2 * |indices|
  {
    StartIsProduct(Attributes, |vs|);
    WordsRead(Columns(vs, Attributes) + indices);
  }

  lemma IndexWord(vs: seq<Quantized>, indices: seq<U16>, i: nat)
    requires i < |indices|
    ensures 16 * |vs| + 2 * i + 2 <= |PackSoaBlob(vs, indices)|
    ensures ReadU16(PackSoaBlob(vs, indices), 16 * |vs| + 2 * i) == indices[i]
  {
    var ws := Columns(vs, Attributes) + indices;
    StartIsProduct(Attributes, |vs|);
    WordsRead(ws);
    assert ws[8 * |vs| + i] == indices[i];
  }

  lemma UnpackVertex(vs: seq<Quantized>, indices: seq<U16>, k: nat)
    requires k < |vs|
    ensures 16 * |vs| <= |PackSoaBlob(vs, indices)|
    ensures VertexAt(PackSoaBlob(vs, indices), |vs|, k) == vs[k]
  {
    BlobLength(vs, indices);
    ColumnWord(vs, indices, 0, k);
    ColumnWord(vs, indices, 1, k);
    ColumnWord(vs, indices, 2, k);
    ColumnWord(vs, indices, 3, k);
    ColumnWord(vs, indices, 4, k);
    ColumnWord(vs, indices, 5, k);
    ColumnWord(vs, indices, 6, k);
    ColumnWord(vs, indices, 7, k);
  }
}
