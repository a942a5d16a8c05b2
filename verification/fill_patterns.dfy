/**
  The index patterns the fill branches of endShape emit for the kinds that
  do not go through the polygon tessellator. Each pattern is a list of
  groups; every group is emitted after one check() for its size, so its
  vertices land in a single draw. A group of 3 is one triangle, a group of
  6 two triangles. The definitions here are closed forms, independent of the
  counted loops that emit them.
 */
module FillPatterns {
  import opened Records
  import opened Shapes

  /** Known-convex POLYGON: a fan around vertex 0, triangle t = (0, t+1, t+2). */
  function ConvexFanGroups(n: nat): (r: seq<seq<nat>>)
  {
    seq(if n >= 2 then n - 2 else 0, t => [0, t + 1, t + 2])
  }

  /** The quad of strip vertices b .. b+3, split along (b+1, b+2). */
  function StripQuad(b: nat): (r: seq<nat>)
  {
    [b, b + 1, b + 2, b + 1, b + 2, b + 3]
  }

  /** QUAD_STRIP: quad g spans vertices 2g .. 2g+3. */
  function QuadStripGroups(n: nat): (r: seq<seq<nat>>)
  {
    seq(if n >= 4 then (n - 4) / 2 + 1 else 0, g requires 0 <= g => StripQuad(2 * g))
  }

  /** The quad of vertices b .. b+3, split along (b, b+2). */
  function SplitQuad(b: nat): (r: seq<nat>)
  {
    [b, b + 1, b + 2, b, b + 2, b + 3]
  }

  /** QUADS: quad g is vertices 4g .. 4g+3; an incomplete trailing group
      is dropped. */
  function QuadGroups(n: nat): (r: seq<seq<nat>>)
  {
    seq(n / 4, g requires 0 <= g => SplitQuad(4 * g))
  }

  /** TRIANGLE_STRIP: triangle t = (t, t+1, t+2). */
  function TriangleStripGroups(n: nat): (r: seq<seq<nat>>)
  {
    seq(if n >= 3 then n - 2 else 0, t => [t, t + 1, t + 2])
  }

  /** TRIANGLE_FAN: the fan around vertex 0 plus a closing triangle
      (0, n-1, 1) that joins the last spoke back to the first. */
  function TriangleFanGroups(n: nat): (r: seq<seq<nat>>)
  {
    if n >= 3 then seq(n - 2, t => [0, t + 1, t + 2]) + [[0, n - 1, 1]] else []
  }

  /** TRIANGLES: triangle t = (3t, 3t+1, 3t+2); leftover vertices are dropped. */
  function TriangleGroups(n: nat): (r: seq<seq<nat>>)
  {
    seq(n / 3, t => [3 * t, 3 * t + 1, 3 * t + 2])
  }

  /** How endShape fills a shape: by a fixed pattern, or through the tessellator. */
  datatype FillRoute = Pattern(groups: seq<seq<nat>>) | Tessellate

  /** The fill route of a shape of `n` vertices. POINTS, LINES and other
      kinds have no fill. */
  function Route(kind: Kind, n: nat, knownConvex: bool): (r: FillRoute)
  {
    match kind
    case Polygon => if knownConvex then Pattern(ConvexFanGroups(n)) else Tessellate
    case QuadStrip => Pattern(QuadStripGroups(n))
    case Quads => Pattern(QuadGroups(n))
    case TriangleStrip => Pattern(TriangleStripGroups(n))
    case TriangleFan => Pattern(TriangleFanGroups(n))
    case Triangles => Pattern(TriangleGroups(n))
    case _ => Pattern([])
  }

  /** What the fill of a shape with vertices `verts` and contour ends
      `starts` added to the submitted records, going from `before` to
      `after`: the records of the pattern's vertices, or those of the
      tessellator's triangles for the rings the contours cut `verts` into;
      the pattern route hands no rings to the tessellator. */
  ghost predicate Filled(route: FillRoute, verts: seq<Vertex>, starts: seq<int>, tess: seq<seq<Vertex>> -> seq<Vertex>,
                         rings: seq<seq<Vertex>>, before: seq<Word>, after: seq<Word>,
                         depth: real, premultiply: bool, m: Affine)
  {
    match route
    case Pattern(gs) =>
      && rings == []
      && InRange(Flatten(gs), |verts|)
      && after == before + Gather(verts, Flatten(gs), depth, premultiply, m)
    case Tessellate =>
      && Joined(rings) == verts
      && (WellNested(starts) ==> RingsMatch(rings, verts, starts))
      && after == before + PackAll(tess(rings), depth, premultiply, m)
  }

  /** Every group of a pattern indexes existing vertices and has 3 or 6 entries. */
  ghost predicate WellFormed(groups: seq<seq<nat>>, n: nat)
  {
    forall i | 0 <= i < |groups| ::
      (|groups[i]| == 3 || |groups[i]| == 6) && InRange(groups[i], n)
  }

  /** One more group emitted: its records follow those of the earlier groups. */
  lemma GatherStep(verts: seq<Vertex>, gs: seq<seq<nat>>, k: nat, depth: real, premultiply: bool, m: Affine)
    requires k < |gs| && InRange(Flatten(gs[..k]), |verts|) && InRange(gs[k], |verts|)
    ensures InRange(Flatten(gs[..k + 1]), |verts|)
    ensures Gather(verts, Flatten(gs[..k + 1]), depth, premultiply, m)
         == Gather(verts, Flatten(gs[..k]), depth, premultiply, m) + Gather(verts, gs[k], depth, premultiply, m)
  {
    FlattenSnoc(gs, k);
    PickAppend(verts, Flatten(gs[..k]), gs[k]);
    PackAllAppend(Pick(verts, Flatten(gs[..k])), Pick(verts, gs[k]), depth, premultiply, m);
  }

  /** The records written so far follow group k: a loop that has emitted
      groups 0 .. k-1 and now writes the records of group k has emitted
      groups 0 .. k. */
  lemma FillStep(sub: seq<Word>, sub': seq<Word>, s0: seq<Word>, verts: seq<Vertex>, gs: seq<seq<nat>>, k: nat,
                 tri: seq<Vertex>, depth: real, premultiply: bool, m: Affine)
    requires k < |gs| && InRange(Flatten(gs[..k]), |verts|)
    requires sub == s0 + Gather(verts, Flatten(gs[..k]), depth, premultiply, m)
    requires InRange(gs[k], |verts|) && Pick(verts, gs[k]) == tri
    requires sub' == sub + PackAll(tri, depth, premultiply, m)
    ensures InRange(Flatten(gs[..k + 1]), |verts|)
    ensures sub' == s0 + Gather(verts, Flatten(gs[..k + 1]), depth, premultiply, m)
  {
    GatherStep(verts, gs, k, depth, premultiply, m);
    assert Gather(verts, gs[k], depth, premultiply, m) == PackAll(tri, depth, premultiply, m);
    AppendAssoc(s0, Gather(verts, Flatten(gs[..k]), depth, premultiply, m), PackAll(tri, depth, premultiply, m));
  }

  /** A pattern of groups all of width 3 or all of width 6, each in range. */
  lemma UniformWellFormed(gs: seq<seq<nat>>, n: nat, w: nat)
    requires w == 3 || w == 6
    requires forall i | 0 <= i < |gs| :: |gs[i]| == w && InRange(gs[i], n)
    ensures WellFormed(gs, n) && InRange(Flatten(gs), n) && |Flatten(gs)| % 3 == 0
  {
    FlattenBound(gs, n);
    FlattenUniform(gs, w);
    if w == 6 {
      assert |Flatten(gs)| == 3 * (2 * |gs|);
    }
  }

  /** Every pattern reads only vertices of the shape and is made of whole
      triangles, whatever the vertex count. */
  lemma RouteWellFormed(kind: Kind, n: nat, knownConvex: bool)
    requires Route(kind, n, knownConvex).Pattern?
    ensures WellFormed(Route(kind, n, knownConvex).groups, n)
    ensures InRange(Flatten(Route(kind, n, knownConvex).groups), n)
    ensures |Flatten(Route(kind, n, knownConvex).groups)| % 3 == 0
  {
    match kind
    case Polygon => UniformWellFormed(ConvexFanGroups(n), n, 3);
    case QuadStrip => UniformWellFormed(QuadStripGroups(n), n, 6);
    case Quads => UniformWellFormed(QuadGroups(n), n, 6);
    case TriangleStrip => UniformWellFormed(TriangleStripGroups(n), n, 3);
    case TriangleFan => UniformWellFormed(TriangleFanGroups(n), n, 3);
    case Triangles => UniformWellFormed(TriangleGroups(n), n, 3);
    case _ => UniformWellFormed([], n, 3);
  }

  /** The counted loops over groups of w vertices run exactly n / w times. */
  lemma QuotientStep(n: nat, w: nat, k: nat)
    requires 0 < w
    ensures k <= n / w ==> w * k <= n
    ensures w * (k + 1) <= n ==> k < n / w
    ensures n < w * (k + 1) && w * k <= n ==> k == n / w
  {
    var q, r := n / w, n % w;
    assert n == w * q + r && 0 <= r < w;
    if k < q {
      MulMonotone(w, k + 1, q);
    } else if k == q {
      assert w * (k + 1) == w * k + w;
    } else {
      MulMonotone(w, q + 1, k);
      assert w * (q + 1) == w * q + w;
    }
  }

  lemma MulMonotone(w: nat, a: nat, b: nat)
    requires a <= b
    ensures w * a <= w * b
  {
    assert w * b == w * a + w * (b - a);
  }

  /** The number of triangles a pattern emits. */
  function TriangleCount(groups: seq<seq<nat>>): (r: nat)
  {
    |Flatten(groups)| / 3
  }

  /** The triangle count of a pattern whose groups are all of 3 or all of 6. */
  lemma UniformCount(gs: seq<seq<nat>>, w: nat)
    requires w == 3 || w == 6
    requires forall i | 0 <= i < |gs| :: |gs[i]| == w
    ensures TriangleCount(gs) == (w / 3) * |gs|
  {
    FlattenUniform(gs, w);
    if w == 6 {
      assert |Flatten(gs)| == 3 * (2 * |gs|);
    }
  }

  /** A known-convex polygon of n >= 3 vertices is filled with n - 2 triangles. */
  lemma ConvexFanCount(n: nat)
    ensures TriangleCount(ConvexFanGroups(n)) == if n >= 2 then n - 2 else 0
  {
    UniformCount(ConvexFanGroups(n), 3);
  }

  /** QUAD_STRIP fills two triangles per pair of vertices after the first
      two; a trailing odd vertex is dropped. */
  lemma QuadStripCount(n: nat)
    ensures TriangleCount(QuadStripGroups(n)) == if n >= 2 then 2 * ((n - 2) / 2) else 0
  {
    UniformCount(QuadStripGroups(n), 6);
    if n >= 4 {
      assert (n - 4) / 2 + 1 == (n - 2) / 2;
    }
  }

  /** QUADS fills two triangles per complete group of four vertices. */
  lemma QuadsCount(n: nat)
    ensures TriangleCount(QuadGroups(n)) == 2 * (n / 4)
  {
    UniformCount(QuadGroups(n), 6);
  }

  /** TRIANGLE_STRIP fills n - 2 triangles. */
  lemma TriangleStripCount(n: nat)
    ensures TriangleCount(TriangleStripGroups(n)) == if n >= 3 then n - 2 else 0
  {
    UniformCount(TriangleStripGroups(n), 3);
  }

  /** TRIANGLE_FAN fills n - 1 triangles, the n - 2 of the fan and the
      closing one. */
  lemma TriangleFanCount(n: nat)
    ensures TriangleCount(TriangleFanGroups(n)) == if n >= 3 then n - 1 else 0
  {
    UniformCount(TriangleFanGroups(n), 3);
  }

  /** TRIANGLES fills one triangle per complete group of three. */
  lemma TrianglesCount(n: nat)
    ensures TriangleCount(TriangleGroups(n)) == n / 3
  {
    UniformCount(TriangleGroups(n), 3);
  }

  /** Vertex k appears in some group of the pattern. */
  ghost predicate Covered(groups: seq<seq<nat>>, k: nat)
  {
    exists i, j | 0 <= i < |groups| && 0 <= j < |groups[i]| :: groups[i][j] == k
  }

  /** Every triangle of a known-convex polygon's fill uses vertex 0, and
      with three or more vertices every vertex is used. */
  lemma ConvexFanCoversAll(n: nat, k: nat)
    ensures forall i | 0 <= i < |ConvexFanGroups(n)| :: ConvexFanGroups(n)[i][0] == 0
    ensures n >= 3 && k < n ==> Covered(ConvexFanGroups(n), k)
  {
    var gs := ConvexFanGroups(n);
    if n >= 3 && k < n {
      if k < 2 {
        assert gs[0][k] == k;
      } else {
        assert gs[k - 2][2] == k;
      }
    }
  }

  /** QUADS fills exactly the vertices of its complete groups of four. */
  lemma QuadsCoverage(n: nat, k: nat)
    ensures Covered(QuadGroups(n), k) <==> k < 4 * (n / 4)
  {
    var gs := QuadGroups(n);
    if k < 4 * (n / 4) {
      var g := k / 4;
      assert gs[g][[0, 1, 2, 5][k % 4]] == k;
    }
    if Covered(gs, k) {
      var i, j :| 0 <= i < |gs| && 0 <= j < |gs[i]| && gs[i][j] == k;
      assert k <= 4 * i + 3;
    }
  }

  /** TRIANGLES fills exactly the vertices of its complete groups of three. */
  lemma TrianglesCoverage(n: nat, k: nat)
    ensures Covered(TriangleGroups(n), k) <==> k < 3 * (n / 3)
  {
    var gs := TriangleGroups(n);
    if k < 3 * (n / 3) {
      assert gs[k / 3][k % 3] == k;
    }
    if Covered(gs, k) {
      var i, j :| 0 <= i < |gs| && 0 <= j < |gs[i]| && gs[i][j] == k;
      assert k <= 3 * i + 2;
    }
  }

  /** Consecutive triangles of a strip share an edge. */
  lemma StripSharesEdges(n: nat, t: nat)
    requires t + 1 < |TriangleStripGroups(n)|
    ensures TriangleStripGroups(n)[t][1] == TriangleStripGroups(n)[t + 1][0]
    ensures TriangleStripGroups(n)[t][2] == TriangleStripGroups(n)[t + 1][1]
  {
  }

  /** A known-convex square (0,0), (10,0), (10,10), (0,10) is filled with
      exactly (v0, v1, v2) and (v0, v2, v3). */
  lemma SquareFan()
    ensures ConvexFanGroups(4) == [[0, 1, 2], [0, 2, 3]]
    ensures TriangleCount(ConvexFanGroups(4)) == 2
  {
    ConvexFanCount(4);
  }

  /** Two quads (eight QUADS vertices) fill four triangles. */
  lemma TwoQuads()
    ensures TriangleCount(QuadGroups(8)) == 4
    ensures QuadGroups(8) == [[0, 1, 2, 0, 2, 3], [4, 5, 6, 4, 6, 7]]
  {
    QuadsCount(8);
  }
}
