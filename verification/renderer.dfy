/**
  The shape path of the 2D renderer: vertex() calls collect the shape in
  the shape buffer, and endShape() closes the last contour, steps the depth
  cursor and emits the fill as triangles into the vertex batch, by a fixed
  index pattern for every kind except a general POLYGON, which goes through
  the polygon tessellator.

  The tessellator is a library outside this model: it is a parameter that
  maps the contour rings of a polygon to the vertices of the triangles it
  reports, three per triangle.
 */
module Renderer {
  import opened Records
  import opened Depth
  import opened Batch
  import opened Shapes
  import opened FillPatterns

  /** 0xFFFFFFFF, opaque white, as a 32-bit signed int. */
  const OpaqueWhite: int := -1

  /** The convex-shape flag after an endShape, as the code is written: only
      the filled POLYGON branch clears it. */
  function ConvexFlagAfterEndShapeAsWritten(fill: bool, kind: Kind, flag: bool): (r: bool)
    ensures r <==> flag && !(fill && kind == Polygon)
  {
    if fill && kind == Polygon && flag then false else flag
  }

  /** With fill off, a shape helper's flag survives its own POLYGON
      endShape, so the next filled POLYGON (say a concave user polygon) is
      fanned from its first vertex instead of tessellated. */
  lemma ConvexFlagLeaksWithoutFill(n: nat)
    ensures ConvexFlagAfterEndShapeAsWritten(false, Polygon, true)
    ensures Route(Polygon, n, ConvexFlagAfterEndShapeAsWritten(false, Polygon, true)) == Pattern(ConvexFanGroups(n))
    ensures Route(Polygon, n, false) == Tessellate
  {
  }

  /** The convex-shape flag after an endShape as the flag's documentation
      intends: it is good for the next POLYGON endShape only, filled or not,
      and survives the other kinds. */
  function ConvexFlagAfterEndShape(kind: Kind, flag: bool): (r: bool)
    ensures kind == Polygon ==> !r
    ensures kind != Polygon ==> r == flag
  {
    if kind == Polygon then false else flag
  }

  /** With the intended flag, a POLYGON following any flagged POLYGON
      endShape is tessellated again, whatever the fill setting was. */
  lemma ConvexFlagOneShot(n: nat, flag: bool)
    ensures Route(Polygon, n, ConvexFlagAfterEndShape(Polygon, flag)) == Tessellate
  {
  }

  /** The two flag rules differ exactly on a POLYGON endShape with fill off
      while the flag is set. */
  lemma ConvexFlagRulesDiffer(fill: bool, kind: Kind, flag: bool)
    ensures ConvexFlagAfterEndShapeAsWritten(fill, kind, flag) != ConvexFlagAfterEndShape(kind, flag)
            <==> !fill && kind == Polygon && flag
  {
  }

  /** The stroke outline of a shape: its kind, vertices, contour starts and
      CLOSE mode to the vertices of the outline's triangles. */
  type Outline = (Kind, seq<Vertex>, seq<int>, bool) -> seq<Vertex>

  /** The depth step after `fill` and `stroke` each take one incrementDepth. */
  function StepsForShape(k: nat, fill: bool, stroke: bool): (k': nat)
    ensures fill || stroke ==> 1 <= k'
    ensures !fill && !stroke ==> k' == k
  {
    var afterFill := if fill then NextStep(k) else k;
    if stroke then NextStep(afterFill) else afterFill
  }

  class Renderer2D {
    const batch: VertexBatch
    const shape: ShapeBuffer
    var fill: bool
    var stroke: bool
    var fillColor: int
    var tint: bool
    var tintColor: int
    var imageTex: int
    /** Set by the convex shape helpers (rect, ellipse, arc) just before
        endShape so that the fill is a fan instead of a tessellation. */
    var knownConvexPolygon: bool

    ghost predicate Valid()
      reads batch, shape, shape.shapeVerts
    {
      batch.Valid() && batch.WholeTriangles() && shape.Valid()
    }

    constructor (premultiply: bool, m: Affine)
      ensures Valid() && fresh(batch) && fresh(batch.vertexData) && fresh(shape)
      ensures fresh(shape.shapeVerts) && fresh(shape.contours)
      ensures fill && stroke && fillColor == OpaqueWhite && !tint && tintColor == OpaqueWhite
      ensures imageTex == 0 && !knownConvexPolygon
      ensures batch.premultiply == premultiply && batch.Submitted() == [] && shape.Verts() == []
    {
      batch := new VertexBatch(premultiply, m);
      shape := new ShapeBuffer();
      fill := true;
      stroke := true;
      fillColor := OpaqueWhite;
      tint := false;
      tintColor := OpaqueWhite;
      imageTex := 0;
      knownConvexPolygon := false;
    }

    /** vertex(x, y): a flat-coloured vertex in the fill colour. */
    method PlainVertex(x: real, y: real)
      requires Valid()
      modifies shape, shape.shapeVerts
      ensures Valid()
      ensures HasXY(old(shape.Verts()), x, y) ==> shape.Verts() == old(shape.Verts())
      ensures !HasXY(old(shape.Verts()), x, y) ==>
                shape.Verts() == old(shape.Verts()) + [Vertex(x, y, 0.0, 0.0, fillColor, 0.0)]
      ensures shape.Contours() == old(shape.Contours()) && shape.shapeType == old(shape.shapeType)
      ensures shape.shapeVerts == old(shape.shapeVerts) || fresh(shape.shapeVerts)
      ensures shape.contours == old(shape.contours)
    {
      shape.ShapeVertex(x, y, 0.0, 0.0, fillColor, 0.0);
    }

    /** vertex(x, y, u, v): binds the current image (flushing on a change of
        texture) and adds a textured vertex, tinted or opaque white. */
    method TexturedVertex(x: real, y: real, u: real, v: real)
      requires Valid()
      modifies shape, shape.shapeVerts, batch
      ensures Valid()
      ensures batch.tex == imageTex && batch.Submitted() == old(batch.Submitted())
      ensures imageTex != old(batch.tex) ==> batch.gl == old(batch.gl) + old(batch.FlushCalls())
      ensures imageTex == old(batch.tex) ==> batch.gl == old(batch.gl)
      ensures HasXY(old(shape.Verts()), x, y) ==> shape.Verts() == old(shape.Verts())
      ensures !HasXY(old(shape.Verts()), x, y) ==>
                shape.Verts() == old(shape.Verts()) + [Vertex(x, y, u, v, if tint then tintColor else OpaqueWhite, 1.0)]
      ensures shape.Contours() == old(shape.Contours()) && shape.shapeType == old(shape.shapeType)
      ensures shape.shapeVerts == old(shape.shapeVerts) || fresh(shape.shapeVerts)
      ensures shape.contours == old(shape.contours)
    {
      batch.TextureImpl(imageTex);
      shape.ShapeVertex(x, y, u, v, if tint then tintColor else OpaqueWhite, 1.0);
    }

    /** beginContour: the next vertex starts a new contour. */
    method BeginContour()
      requires Valid()
      modifies shape, shape.contours
      ensures Valid()
      ensures shape.Contours() == old(shape.Contours()) + [shape.vertCount]
      ensures shape.Verts() == old(shape.Verts()) && shape.shapeType == old(shape.shapeType)
      ensures shape.contours == old(shape.contours) || fresh(shape.contours)
      ensures shape.shapeVerts == old(shape.shapeVerts)
    {
      shape.AppendContour(shape.vertCount);
    }

    /** Group k of a fill pattern, the triangle of shape vertices i0, i1,
        i2, emitted after the groups before it. */
    method EmitGroupTriangle(ghost verts: seq<Vertex>, ghost gs: seq<seq<nat>>, ghost k: nat, ghost s0: seq<Word>,
                             i0: nat, i1: nat, i2: nat)
      requires batch.Valid() && batch.WholeTriangles() && shape.Valid() && verts == shape.Verts()
      requires k < |gs| && gs[k] == [i0, i1, i2] && i0 < |verts| && i1 < |verts| && i2 < |verts|
      requires InRange(Flatten(gs[..k]), |verts|)
      requires batch.Submitted() == s0 + Gather(verts, Flatten(gs[..k]), batch.depth, batch.premultiply, batch.projmodelview)
      modifies batch, batch.vertexData
      ensures batch.Valid() && batch.WholeTriangles()
      ensures InRange(Flatten(gs[..k + 1]), |verts|)
      ensures batch.Submitted() == s0 + Gather(verts, Flatten(gs[..k + 1]), batch.depth, batch.premultiply, batch.projmodelview)
      ensures batch.tex == old(batch.tex) && batch.depth == old(batch.depth) && batch.depthStep == old(batch.depthStep)
      ensures batch.projmodelview == old(batch.projmodelview)
    {
      assert InRange(gs[k], |verts|);
      assert gs[k][0] == i0 && gs[k][1] == i1 && gs[k][2] == i2;
      var a, b, c := shape.shapeVerts[i0], shape.shapeVerts[i1], shape.shapeVerts[i2];
      assert Pick(verts, gs[k]) == [a, b, c];
      ghost var before := batch.Submitted();
      batch.EmitTriangle(a, b, c);
      FillStep(before, batch.Submitted(), s0, verts, gs, k, [a, b, c], batch.depth, batch.premultiply, batch.projmodelview);
    }

    /** Group k of a fill pattern, the two triangles (i0, i1, i2) and
        (i3, i4, i5) of a quad, emitted after the groups before it. */
    method EmitGroupPair(ghost verts: seq<Vertex>, ghost gs: seq<seq<nat>>, ghost k: nat, ghost s0: seq<Word>,
                         i0: nat, i1: nat, i2: nat, i3: nat, i4: nat, i5: nat)
      requires batch.Valid() && batch.WholeTriangles() && shape.Valid() && verts == shape.Verts()
      requires k < |gs| && gs[k] == [i0, i1, i2, i3, i4, i5]
      requires i0 < |verts| && i1 < |verts| && i2 < |verts| && i3 < |verts| && i4 < |verts| && i5 < |verts|
      requires InRange(Flatten(gs[..k]), |verts|)
      requires batch.Submitted() == s0 + Gather(verts, Flatten(gs[..k]), batch.depth, batch.premultiply, batch.projmodelview)
      modifies batch, batch.vertexData
      ensures batch.Valid() && batch.WholeTriangles()
      ensures InRange(Flatten(gs[..k + 1]), |verts|)
      ensures batch.Submitted() == s0 + Gather(verts, Flatten(gs[..k + 1]), batch.depth, batch.premultiply, batch.projmodelview)
      ensures batch.tex == old(batch.tex) && batch.depth == old(batch.depth) && batch.depthStep == old(batch.depthStep)
      ensures batch.projmodelview == old(batch.projmodelview)
    {
      assert InRange(gs[k], |verts|);
      assert gs[k][0] == i0 && gs[k][1] == i1 && gs[k][2] == i2 && gs[k][3] == i3 && gs[k][4] == i4 && gs[k][5] == i5;
      var a, b, c := shape.shapeVerts[i0], shape.shapeVerts[i1], shape.shapeVerts[i2];
      var d, e, f := shape.shapeVerts[i3], shape.shapeVerts[i4], shape.shapeVerts[i5];
      assert Pick(verts, gs[k]) == [a, b, c, d, e, f];
      ghost var before := batch.Submitted();
      batch.EmitTrianglePair(a, b, c, d, e, f);
      FillStep(before, batch.Submitted(), s0, verts, gs, k, [a, b, c, d, e, f], batch.depth, batch.premultiply, batch.projmodelview);
    }

    /** The fill of a known-convex POLYGON: check(3) and one triangle
        (0, i-1, i) for each i from 2. */
    method FillConvexFan()
      requires Valid()
      modifies batch, batch.vertexData
      ensures Valid()
      ensures InRange(Flatten(ConvexFanGroups(shape.vertCount)), shape.vertCount)
      ensures batch.Submitted() == old(batch.Submitted())
                + Gather(shape.Verts(), Flatten(ConvexFanGroups(shape.vertCount)), batch.depth, batch.premultiply, batch.projmodelview)
      ensures batch.tex == old(batch.tex) && batch.depth == old(batch.depth) && batch.depthStep == old(batch.depthStep)
      ensures batch.projmodelview == old(batch.projmodelview)
    {
      ghost var verts := shape.Verts();
      ghost var gs := ConvexFanGroups(shape.vertCount);
      ghost var s0 := batch.Submitted();
      var i := 2;
      while i < shape.vertCount
        invariant 2 <= i && i - 2 <= |gs|
        invariant batch.Valid() && batch.WholeTriangles() && batch.depth == old(batch.depth) && batch.tex == old(batch.tex)
        invariant batch.depthStep == old(batch.depthStep) && batch.projmodelview == old(batch.projmodelview)
        invariant InRange(Flatten(gs[..i - 2]), |verts|)
        invariant batch.Submitted() == s0 + Gather(verts, Flatten(gs[..i - 2]), batch.depth, batch.premultiply, batch.projmodelview)
      {
        EmitGroupTriangle(verts, gs, i - 2, s0, 0, i - 1, i);
        i := i + 1;
      }
      PrefixAll(gs, i - 2);
    }

    /** The QUAD_STRIP fill: check(6) and two triangles per step of two. */
    method FillQuadStrip()
      requires Valid()
      modifies batch, batch.vertexData
      ensures Valid()
      ensures InRange(Flatten(QuadStripGroups(shape.vertCount)), shape.vertCount)
      ensures batch.Submitted() == old(batch.Submitted())
                + Gather(shape.Verts(), Flatten(QuadStripGroups(shape.vertCount)), batch.depth, batch.premultiply, batch.projmodelview)
      ensures batch.tex == old(batch.tex) && batch.depth == old(batch.depth) && batch.depthStep == old(batch.depthStep)
      ensures batch.projmodelview == old(batch.projmodelview)
    {
      ghost var verts := shape.Verts();
      ghost var gs := QuadStripGroups(shape.vertCount);
      ghost var s0 := batch.Submitted();
      var i := 0;
      ghost var k := 0;
      while i <= shape.vertCount - 4
        invariant i == 2 * k && k <= |gs|
        invariant batch.Valid() && batch.WholeTriangles() && batch.depth == old(batch.depth) && batch.tex == old(batch.tex)
        invariant batch.depthStep == old(batch.depthStep) && batch.projmodelview == old(batch.projmodelview)
        invariant InRange(Flatten(gs[..k]), |verts|)
        invariant batch.Submitted() == s0 + Gather(verts, Flatten(gs[..k]), batch.depth, batch.premultiply, batch.projmodelview)
      {
        EmitGroupPair(verts, gs, k, s0, i, i + 1, i + 2, i + 1, i + 2, i + 3);
        i := i + 2;
        k := k + 1;
      }
      PrefixAll(gs, k);
    }

    /** The QUADS fill: check(6) and two triangles per complete group of four. */
    method FillQuads()
      requires Valid()
      modifies batch, batch.vertexData
      ensures Valid()
      ensures InRange(Flatten(QuadGroups(shape.vertCount)), shape.vertCount)
      ensures batch.Submitted() == old(batch.Submitted())
                + Gather(shape.Verts(), Flatten(QuadGroups(shape.vertCount)), batch.depth, batch.premultiply, batch.projmodelview)
      ensures batch.tex == old(batch.tex) && batch.depth == old(batch.depth) && batch.depthStep == old(batch.depthStep)
      ensures batch.projmodelview == old(batch.projmodelview)
    {
      ghost var verts := shape.Verts();
      ghost var gs := QuadGroups(shape.vertCount);
      ghost var s0 := batch.Submitted();
      var i := 0;
      ghost var k := 0;
      while i <= shape.vertCount - 4
        invariant i == 4 * k && k <= |gs|
        invariant batch.Valid() && batch.WholeTriangles() && batch.depth == old(batch.depth) && batch.tex == old(batch.tex)
        invariant batch.depthStep == old(batch.depthStep) && batch.projmodelview == old(batch.projmodelview)
        invariant InRange(Flatten(gs[..k]), |verts|)
        invariant batch.Submitted() == s0 + Gather(verts, Flatten(gs[..k]), batch.depth, batch.premultiply, batch.projmodelview)
      {
        QuotientStep(shape.vertCount, 4, k);
        assert k < |gs|;
        assert gs[k] == SplitQuad(i);
        EmitGroupPair(verts, gs, k, s0, i, i + 1, i + 2, i, i + 2, i + 3);
        i := i + 4;
        k := k + 1;
      }
      QuotientStep(shape.vertCount, 4, k);
      PrefixAll(gs, k);
    }

    /** The TRIANGLE_STRIP fill: check(3) and triangle (i, i+1, i+2) per step. */
    method FillTriangleStrip()
      requires Valid()
      modifies batch, batch.vertexData
      ensures Valid()
      ensures InRange(Flatten(TriangleStripGroups(shape.vertCount)), shape.vertCount)
      ensures batch.Submitted() == old(batch.Submitted())
                + Gather(shape.Verts(), Flatten(TriangleStripGroups(shape.vertCount)), batch.depth, batch.premultiply, batch.projmodelview)
      ensures batch.tex == old(batch.tex) && batch.depth == old(batch.depth) && batch.depthStep == old(batch.depthStep)
      ensures batch.projmodelview == old(batch.projmodelview)
    {
      ghost var verts := shape.Verts();
      ghost var gs := TriangleStripGroups(shape.vertCount);
      ghost var s0 := batch.Submitted();
      var i := 0;
      while i <= shape.vertCount - 3
        invariant 0 <= i <= |gs|
        invariant batch.Valid() && batch.WholeTriangles() && batch.depth == old(batch.depth) && batch.tex == old(batch.tex)
        invariant batch.depthStep == old(batch.depthStep) && batch.projmodelview == old(batch.projmodelview)
        invariant InRange(Flatten(gs[..i]), |verts|)
        invariant batch.Submitted() == s0 + Gather(verts, Flatten(gs[..i]), batch.depth, batch.premultiply, batch.projmodelview)
      {
        EmitGroupTriangle(verts, gs, i, s0, i, i + 1, i + 2);
        i := i + 1;
      }
      PrefixAll(gs, i);
    }

    /** The TRIANGLE_FAN fill: check(3) and triangle (0, i+1, i+2) per step,
        then, with three or more vertices, the closing triangle (0, n-1, 1). */
    method FillTriangleFan()
      requires Valid()
      modifies batch, batch.vertexData
      ensures Valid()
      ensures InRange(Flatten(TriangleFanGroups(shape.vertCount)), shape.vertCount)
      ensures batch.Submitted() == old(batch.Submitted())
                + Gather(shape.Verts(), Flatten(TriangleFanGroups(shape.vertCount)), batch.depth, batch.premultiply, batch.projmodelview)
      ensures batch.tex == old(batch.tex) && batch.depth == old(batch.depth) && batch.depthStep == old(batch.depthStep)
      ensures batch.projmodelview == old(batch.projmodelview)
    {
      ghost var verts := shape.Verts();
      ghost var gs := TriangleFanGroups(shape.vertCount);
      ghost var s0 := batch.Submitted();
      var i := 0;
      while i <= shape.vertCount - 3
        invariant 0 <= i && (if shape.vertCount >= 3 then i <= shape.vertCount - 2 else i == 0)
        invariant batch.Valid() && batch.WholeTriangles() && batch.depth == old(batch.depth) && batch.tex == old(batch.tex)
        invariant batch.depthStep == old(batch.depthStep) && batch.projmodelview == old(batch.projmodelview)
        invariant InRange(Flatten(gs[..i]), |verts|)
        invariant batch.Submitted() == s0 + Gather(verts, Flatten(gs[..i]), batch.depth, batch.premultiply, batch.projmodelview)
      {
        EmitGroupTriangle(verts, gs, i, s0, 0, i + 1, i + 2);
        i := i + 1;
      }
      if shape.vertCount >= 3 {
        EmitGroupTriangle(verts, gs, i, s0, 0, shape.vertCount - 1, 1);
        PrefixAll(gs, i + 1);
      } else {
        PrefixAll(gs, i);
      }
    }

    /** The TRIANGLES fill: check(3) and one triangle per complete group of three. */
    method FillTriangles()
      requires Valid()
      modifies batch, batch.vertexData
      ensures Valid()
      ensures InRange(Flatten(TriangleGroups(shape.vertCount)), shape.vertCount)
      ensures batch.Submitted() == old(batch.Submitted())
                + Gather(shape.Verts(), Flatten(TriangleGroups(shape.vertCount)), batch.depth, batch.premultiply, batch.projmodelview)
      ensures batch.tex == old(batch.tex) && batch.depth == old(batch.depth) && batch.depthStep == old(batch.depthStep)
      ensures batch.projmodelview == old(batch.projmodelview)
    {
      ghost var verts := shape.Verts();
      ghost var gs := TriangleGroups(shape.vertCount);
      ghost var s0 := batch.Submitted();
      var i := 0;
      ghost var k := 0;
      while i <= shape.vertCount - 3
        invariant i == 3 * k && k <= |gs|
        invariant batch.Valid() && batch.WholeTriangles() && batch.depth == old(batch.depth) && batch.tex == old(batch.tex)
        invariant batch.depthStep == old(batch.depthStep) && batch.projmodelview == old(batch.projmodelview)
        invariant InRange(Flatten(gs[..k]), |verts|)
        invariant batch.Submitted() == s0 + Gather(verts, Flatten(gs[..k]), batch.depth, batch.premultiply, batch.projmodelview)
      {
        QuotientStep(shape.vertCount, 3, k);
        EmitGroupTriangle(verts, gs, k, s0, i, i + 1, i + 2);
        i := i + 3;
        k := k + 1;
      }
      QuotientStep(shape.vertCount, 3, k);
      PrefixAll(gs, k);
    }

    /** The triangles of a tessellation or of a stroke outline, three
        vertices per triangle, each triangle behind a check(3) so that none
        is split across two draw calls. */
    method EmitTriangles(tris: seq<Vertex>)
      requires Valid() && |tris| % 3 == 0
      modifies batch, batch.vertexData
      ensures Valid()
      ensures batch.Submitted() == old(batch.Submitted()) + PackAll(tris, batch.depth, batch.premultiply, batch.projmodelview)
      ensures batch.tex == old(batch.tex) && batch.depth == old(batch.depth) && batch.depthStep == old(batch.depthStep)
      ensures batch.projmodelview == old(batch.projmodelview)
    {
      ghost var s0 := batch.Submitted();
      var i := 0;
      while i < |tris|
        invariant 0 <= i <= |tris|
        invariant batch.Valid() && DrawsWhole(batch.gl) && batch.usedVerts % 3 == i % 3
        invariant batch.depth == old(batch.depth) && batch.tex == old(batch.tex)
        invariant batch.depthStep == old(batch.depthStep) && batch.projmodelview == old(batch.projmodelview)
        invariant batch.Submitted() == s0 + PackAll(tris[..i], batch.depth, batch.premultiply, batch.projmodelview)
      {
        batch.TessVertex(tris[i], s0, tris[..i]);
        PrefixSnoc(tris, i);
        i := i + 1;
      }
      PrefixAll(tris, i);
    }

    /** The general POLYGON fill: the contour walk hands the rings to the
        tessellator, whose triangle vertices go through the tessellator's
        vertex callback. */
    method FillTessellated(tess: seq<seq<Vertex>> -> seq<Vertex>) returns (rings: seq<seq<Vertex>>)
      requires Valid() && 0 < shape.contourCount && shape.contours[shape.contourCount - 1] == shape.vertCount
      requires forall rs :: |tess(rs)| % 3 == 0
      modifies batch, batch.vertexData
      ensures Valid()
      ensures Joined(rings) == shape.Verts()
      ensures WellNested(shape.Contours()) ==>
                |rings| == shape.contourCount && RingsMatch(rings, shape.Verts(), shape.Contours())
      ensures batch.Submitted() == old(batch.Submitted())
                + PackAll(tess(rings), batch.depth, batch.premultiply, batch.projmodelview)
      ensures batch.tex == old(batch.tex) && batch.depth == old(batch.depth) && batch.depthStep == old(batch.depthStep)
      ensures batch.projmodelview == old(batch.projmodelview)
    {
      rings := shape.SplitContours();
      EmitTriangles(tess(rings));
    }

    /** The fill part of endShape: with fill on, one depth step, then the
        pattern of the shape's kind, or the tessellator for a POLYGON not
        known to be convex; with fill off, nothing. `rings` are the contours
        handed to the tessellator, empty when it is not used. */
    method FillShape(tess: seq<seq<Vertex>> -> seq<Vertex>) returns (rings: seq<seq<Vertex>>)
      requires Valid() && 0 < shape.contourCount && shape.contours[shape.contourCount - 1] == shape.vertCount
      requires forall rs :: |tess(rs)| % 3 == 0
      modifies batch, batch.vertexData
      ensures Valid()
      ensures batch.depthStep == if fill then NextStep(old(batch.depthStep)) else old(batch.depthStep)
      ensures batch.tex == old(batch.tex) && batch.projmodelview == old(batch.projmodelview)
      ensures !fill ==> batch.Submitted() == old(batch.Submitted()) && rings == []
      ensures fill ==>
                Filled(Route(shape.shapeType, shape.vertCount, knownConvexPolygon), shape.Verts(), shape.Contours(),
                       tess, rings, old(batch.Submitted()), batch.Submitted(),
                       batch.depth, batch.premultiply, batch.projmodelview)
    {
      rings := [];
      if !fill {
        return;
      }
      batch.IncrementDepth();
      match shape.shapeType
      case Polygon =>
        if knownConvexPolygon {
          FillConvexFan();
        } else {
          rings := FillTessellated(tess);
        }
      case QuadStrip => FillQuadStrip();
      case Quads => FillQuads();
      case TriangleStrip => FillTriangleStrip();
      case TriangleFan => FillTriangleFan();
      case Triangles => FillTriangles();
      case _ =>
        assert Flatten([]) == [];
    }

    /** The stroke part of endShape: with stroke on, one depth step, then
        the triangles of the outline, each through check(3) as the stroke
        renderer's triangle() sends them; with stroke off, nothing. The
        outline's geometry (offsets, joins and caps in floating point) is
        not part of this model: `outline` maps the shape's kind, vertices,
        contour starts and CLOSE mode to the vertices of its triangles. */
    method StrokeShape(close: bool, outline: Outline)
      requires Valid()
      requires forall k, vs, cs, c :: |outline(k, vs, cs, c)| % 3 == 0
      modifies batch, batch.vertexData
      ensures Valid()
      ensures batch.depthStep == if stroke then NextStep(old(batch.depthStep)) else old(batch.depthStep)
      ensures stroke ==>
                batch.Submitted() == old(batch.Submitted())
                  + PackAll(outline(shape.shapeType, shape.Verts(), shape.Contours(), close),
                            batch.depth, batch.premultiply, batch.projmodelview)
      ensures !stroke ==> batch.Submitted() == old(batch.Submitted())
      ensures batch.tex == old(batch.tex) && batch.projmodelview == old(batch.projmodelview)
    {
      if stroke {
        batch.IncrementDepth();
        EmitTriangles(outline(shape.shapeType, shape.shapeVerts[..shape.vertCount], shape.contours[..shape.contourCount], close));
      }
    }

    /** endShape: closes the last contour; with fill on, steps the depth and
        emits the fill of the shape's kind; with stroke on, steps the depth
        again and emits the outline. The filled known-convex POLYGON
        consumes the convex-shape flag; with fill off the flag is left set
        (see ConvexFlagAfterEndShapeAsWritten). `rings` are the contours
        handed to the tessellator, empty when it is not used, and `mid`
        is what has been submitted once the fill is done. */
    method EndShape(close: bool, tess: seq<seq<Vertex>> -> seq<Vertex>, outline: Outline)
      returns (rings: seq<seq<Vertex>>, ghost mid: seq<Word>)
      requires Valid()
      requires forall rs :: |tess(rs)| % 3 == 0
      requires forall k, vs, cs, c :: |outline(k, vs, cs, c)| % 3 == 0
      modifies this, shape, shape.contours, batch, batch.vertexData
      ensures Valid()
      ensures fill == old(fill) && stroke == old(stroke) && fillColor == old(fillColor)
      ensures tint == old(tint) && tintColor == old(tintColor) && imageTex == old(imageTex)
      ensures shape.Verts() == old(shape.Verts()) && shape.shapeType == old(shape.shapeType)
      ensures shape.Contours() == old(shape.Contours()) + [shape.vertCount]
      ensures shape.contours == old(shape.contours) || fresh(shape.contours)
      ensures shape.shapeVerts == old(shape.shapeVerts)
      ensures knownConvexPolygon == ConvexFlagAfterEndShapeAsWritten(fill, shape.shapeType, old(knownConvexPolygon))
      ensures batch.depthStep == StepsForShape(old(batch.depthStep), fill, stroke)
      ensures batch.tex == old(batch.tex) && batch.projmodelview == old(batch.projmodelview)
      ensures !fill ==> mid == old(batch.Submitted()) && rings == []
      ensures fill ==>
                Filled(Route(shape.shapeType, shape.vertCount, old(knownConvexPolygon)), shape.Verts(), shape.Contours(),
                       tess, rings, old(batch.Submitted()), mid,
                       DepthAt(NextStep(old(batch.depthStep))), batch.premultiply, batch.projmodelview)
      ensures batch.Submitted() == mid
                + if stroke then PackAll(outline(shape.shapeType, shape.Verts(), shape.Contours(), close),
                                         batch.depth, batch.premultiply, batch.projmodelview)
                  else []
    {
      shape.AppendContour(shape.vertCount);
      rings := FillShape(tess);
      mid := batch.Submitted();
      knownConvexPolygon := ConvexFlagAfterEndShapeAsWritten(fill, shape.shapeType, knownConvexPolygon);
      StrokeShape(close, outline);
    }
  }
}
