/**
  The vertex batch buffer: a fixed array of seven-float vertex records that
  is filled in place and handed to the GPU as one triangle-list draw when it
  is flushed. Flushes happen on capacity (check), on a texture change
  (textureImpl), on a depth epoch reset (incrementDepth) and, when the matrix
  is a draw uniform rather than pre-multiplied, on a matrix change.

  The GL calls are abstracted into a ghost log `gl` of draw calls and
  depth-buffer clears. Submitted() is everything ever written: the records of
  all logged draws followed by the pending prefix of the array.
 */
module Batch {
  import opened Records
  import opened Depth

  /** Capacity in vertices (2000 triangles). */
  const MaxVerts: nat := 6000

  /** One drawArrays(TRIANGLES, 0, count): the texture bound, the transform
      uniform loaded, and the uploaded records. */
  datatype DrawCall = DrawCall(texture: int, transform: Affine, count: nat, data: seq<Word>)

  /** What the renderer asks of the GPU. */
  datatype GlCall = Draw(call: DrawCall) | ClearDepth

  /** The records of every draw in a log, in submission order. */
  function Drawn(log: seq<GlCall>): (r: seq<Word>)
  {
    if log == [] then []
    else Drawn(log[..|log| - 1]) + (if log[|log| - 1].Draw? then log[|log| - 1].call.data else [])
  }

  lemma DrawnAppend(log: seq<GlCall>, e: GlCall)
    ensures Drawn(log + [e]) == Drawn(log) + (if e.Draw? then e.call.data else [])
  {
    assert (log + [e])[..|log|] == log;
  }

  /** Every draw in the log holds whole triangles. */
  ghost predicate DrawsWhole(log: seq<GlCall>)
  {
    log == [] || (DrawsWhole(log[..|log| - 1]) && (log[|log| - 1].Draw? ==> log[|log| - 1].call.count % 3 == 0))
  }

  /** Every draw in the log is of 1 to MaxVerts vertices with their records. */
  ghost predicate DrawsFit(log: seq<GlCall>)
  {
    log == [] ||
    (DrawsFit(log[..|log| - 1])
     && (log[|log| - 1].Draw? ==>
           0 < log[|log| - 1].call.count <= MaxVerts
           && |log[|log| - 1].call.data| == RecordSize * log[|log| - 1].call.count))
  }

  lemma DrawsAppend(log: seq<GlCall>, e: GlCall)
    ensures DrawsWhole(log + [e]) <==> DrawsWhole(log) && (e.Draw? ==> e.call.count % 3 == 0)
    ensures DrawsFit(log + [e]) <==>
              DrawsFit(log) && (e.Draw? ==> 0 < e.call.count <= MaxVerts && |e.call.data| == RecordSize * e.call.count)
  {
    assert (log + [e])[..|log|] == log;
  }

  /** One vertex more keeps the vertex count in step with the callback count. */
  lemma PhaseStep(u: nat, i: nat)
    requires u % 3 == i % 3
    ensures (u + 1) % 3 == (i + 1) % 3
    ensures u % 3 == 0 ==> (i + 1) % 3 == 1
  {
  }

  /** A whole triangle more keeps the count of pending vertices a multiple of 3. */
  lemma TriangleStep(u: nat)
    ensures (u + 3) % 3 == u % 3
  {
  }

  class VertexBatch {
    /** Whether the matrix is applied to x and y on the way in (true) or
        loaded as a draw uniform at flush time (false). */
    const premultiply: bool
    var projmodelview: Affine

    const vertexData: array<Word>
    var usedVerts: nat
    var tex: int
    var depth: real

    ghost var depthStep: nat
    ghost var gl: seq<GlCall>

    /** The pending count fits the array. */
    ghost predicate Sized()
      reads this
    {
      vertexData.Length == RecordSize * MaxVerts && usedVerts <= MaxVerts
    }

    ghost predicate Valid()
      reads this
    {
      && Sized()
      && depthStep <= EpochLength && depth == DepthAt(depthStep)
      && DrawsFit(gl)
    }

    /** No triangle is split between two draws: the pending batch and every
        logged draw hold a multiple of three vertices. */
    ghost predicate WholeTriangles()
      reads this
    {
      usedVerts % 3 == 0 && DrawsWhole(gl)
    }

    /** The records written since the last flush. */
    ghost function Pending(): (r: seq<Word>)
      reads this, vertexData
      requires Sized()
    {
      vertexData[..RecordSize * usedVerts]
    }

    /** Every record written so far, drawn or pending, in order. */
    ghost function Submitted(): (r: seq<Word>)
      reads this, vertexData
      requires Sized()
    {
      Drawn(gl) + Pending()
    }

    /** The transform uniform a flush would load. */
    function Uniform(): (r: Affine)
      reads this
    {
      if premultiply then Identity else projmodelview
    }

    /** The records the next vertexImpl(vt) writes. */
    function Record(vt: Vertex): (r: seq<Word>)
      reads this
    {
      Packed(vt, depth, premultiply, projmodelview)
    }

    /** The calls a flush of the current batch issues: none when empty. */
    ghost function FlushCalls(): (r: seq<GlCall>)
      reads this, vertexData
      requires Sized()
    {
      if usedVerts == 0 then [] else [Draw(DrawCall(tex, Uniform(), usedVerts, Pending()))]
    }

    constructor (premultiply: bool, m: Affine)
      ensures Valid() && WholeTriangles() && fresh(vertexData)
      ensures this.premultiply == premultiply && projmodelview == m
      ensures usedVerts == 0 && gl == [] && tex == 0 && depth == 1.0
    {
      this.premultiply := premultiply;
      projmodelview := m;
      vertexData := new Word[RecordSize * MaxVerts];
      usedVerts := 0;
      tex := 0;
      depth := 1.0;
      depthStep := 0;
      gl := [];
    }

    /** flushBuffer: nothing when empty; otherwise one draw of usedVerts
        vertices with the bound texture, then the count is reset. */
    method FlushBuffer()
      requires Valid()
      modifies this
      ensures Valid()
      ensures gl == old(gl) + old(FlushCalls())
      ensures usedVerts == 0
      ensures Submitted() == old(Submitted())
      ensures tex == old(tex) && depth == old(depth) && depthStep == old(depthStep)
      ensures projmodelview == old(projmodelview)
      ensures old(DrawsWhole(gl) && usedVerts % 3 == 0) ==> WholeTriangles()
    {
      if usedVerts == 0 {
        return;
      }
      var call := DrawCall(tex, Uniform(), usedVerts, vertexData[..RecordSize * usedVerts]);
      DrawnAppend(gl, Draw(call));
      DrawsAppend(gl, Draw(call));
      gl := gl + [Draw(call)];
      usedVerts := 0;
    }

    /** check: flush first exactly when newVerts more would not fit. */
    method Check(newVerts: nat)
      requires Valid()
      modifies this
      ensures Valid()
      ensures old(usedVerts) + newVerts > MaxVerts ==> gl == old(gl) + old(FlushCalls()) && usedVerts == 0
      ensures old(usedVerts) + newVerts <= MaxVerts ==> gl == old(gl) && usedVerts == old(usedVerts)
      ensures newVerts <= MaxVerts ==> usedVerts + newVerts <= MaxVerts
      ensures Submitted() == old(Submitted())
      ensures tex == old(tex) && depth == old(depth) && depthStep == old(depthStep)
      ensures projmodelview == old(projmodelview)
      ensures old(WholeTriangles()) ==> WholeTriangles()
    {
      if usedVerts + newVerts > MaxVerts {
        FlushBuffer();
      }
    }

    /** textureImpl: binding the texture already bound is free; any other
        texture first flushes the batch, so a draw never mixes textures. */
    method TextureImpl(glId: int)
      requires Valid()
      modifies this
      ensures Valid()
      ensures tex == glId
      ensures glId == old(tex) ==> gl == old(gl) && usedVerts == old(usedVerts)
      ensures glId != old(tex) ==> gl == old(gl) + old(FlushCalls()) && usedVerts == 0
      ensures Submitted() == old(Submitted())
      ensures depth == old(depth) && depthStep == old(depthStep)
      ensures projmodelview == old(projmodelview)
      ensures old(WholeTriangles()) ==> WholeTriangles()
    {
      if glId == tex {
        return;
      }
      FlushBuffer();
      tex := glId;
    }

    /** vertexImpl: the caller has reserved room (check); writes exactly the
        seven slots of record usedVerts, stamped with the current depth. */
    method VertexImpl(vt: Vertex)
      requires Valid() && usedVerts < MaxVerts
      modifies this, vertexData
      ensures Valid()
      ensures usedVerts == old(usedVerts) + 1
      ensures vertexData[RecordSize * old(usedVerts) .. RecordSize * usedVerts] == old(Record(vt))
      ensures vertexData[RecordSize * old(usedVerts) + 2] == Num(depth)
      ensures forall j | 0 <= j < vertexData.Length && !(RecordSize * old(usedVerts) <= j < RecordSize * usedVerts) ::
                vertexData[j] == old(vertexData[j])
      ensures Pending() == old(Pending()) + old(Record(vt))
      ensures Submitted() == old(Submitted()) + old(Record(vt))
      ensures gl == old(gl) && tex == old(tex) && depth == old(depth) && depthStep == old(depthStep)
      ensures projmodelview == old(projmodelview)
    {
      var idx := RecordSize * usedVerts;
      var rec := Packed(vt, depth, premultiply, projmodelview);
      forall j | 0 <= j < RecordSize {
        vertexData[idx + j] := rec[j];
      }
      usedVerts := usedVerts + 1;
      assert vertexData[idx .. idx + RecordSize] == rec;
      assert vertexData[..idx] == old(vertexData[..idx]);
      assert vertexData[..RecordSize * usedVerts] == vertexData[..idx] + vertexData[idx .. idx + RecordSize];
    }

    /** check(3) then three vertexImpl calls: one triangle, never split
        across a flush, stamped with the current depth. */
    method EmitTriangle(a: Vertex, b: Vertex, c: Vertex)
      requires Valid() && WholeTriangles()
      modifies this, vertexData
      ensures Valid() && WholeTriangles()
      ensures Submitted() == old(Submitted()) + PackAll([a, b, c], depth, premultiply, projmodelview)
      ensures tex == old(tex) && depth == old(depth) && depthStep == old(depthStep)
      ensures projmodelview == old(projmodelview)
    {
      Check(3);
      ghost var s0 := Submitted();
      assert PackAll([], depth, premultiply, projmodelview) == [];
      JoinTriangles(a, b, c, a, b, c);
      ghost var u := usedVerts;
      PutTriangle(a, b, c, s0, []);
      TriangleStep(u);
    }

    /** check(6) then six vertexImpl calls: the two triangles of a quad,
        always drawn together. */
    method EmitTrianglePair(a: Vertex, b: Vertex, c: Vertex, d: Vertex, e: Vertex, f: Vertex)
      requires Valid() && WholeTriangles()
      modifies this, vertexData
      ensures Valid() && WholeTriangles()
      ensures Submitted() == old(Submitted()) + PackAll([a, b, c, d, e, f], depth, premultiply, projmodelview)
      ensures tex == old(tex) && depth == old(depth) && depthStep == old(depthStep)
      ensures projmodelview == old(projmodelview)
    {
      Check(6);
      ghost var s0 := Submitted();
      assert PackAll([], depth, premultiply, projmodelview) == [];
      JoinTriangles(a, b, c, d, e, f);
      ghost var u := usedVerts;
      PutTriangle(a, b, c, s0, []);
      TriangleStep(u);
      PutTriangle(d, e, f, s0, [a, b, c]);
      TriangleStep(u + 3);
    }

    /** Three vertexImpl calls into room that check() has reserved. */
    method PutTriangle(a: Vertex, b: Vertex, c: Vertex, ghost s0: seq<Word>, ghost sent: seq<Vertex>)
      requires Valid() && usedVerts + 3 <= MaxVerts
      requires Submitted() == s0 + PackAll(sent, depth, premultiply, projmodelview)
      modifies this, vertexData
      ensures Valid() && usedVerts == old(usedVerts) + 3
      ensures Submitted() == s0 + PackAll(sent + [a, b, c], depth, premultiply, projmodelview)
      ensures gl == old(gl) && tex == old(tex) && depth == old(depth) && depthStep == old(depthStep)
      ensures projmodelview == old(projmodelview)
    {
      assert sent + [a] + [b] + [c] == sent + [a, b, c];
      Put(a, s0, sent);
      Put(b, s0, sent + [a]);
      Put(c, s0, sent + [a] + [b]);
    }

    /** One vertexImpl into reserved room. */
    method Put(vt: Vertex, ghost s0: seq<Word>, ghost sent: seq<Vertex>)
      requires Valid() && usedVerts < MaxVerts
      requires Submitted() == s0 + PackAll(sent, depth, premultiply, projmodelview)
      modifies this, vertexData
      ensures Valid() && usedVerts == old(usedVerts) + 1
      ensures Submitted() == s0 + PackAll(sent + [vt], depth, premultiply, projmodelview)
      ensures gl == old(gl) && tex == old(tex) && depth == old(depth) && depthStep == old(depthStep)
      ensures projmodelview == old(projmodelview)
    {
      ghost var rec := Record(vt);
      VertexImpl(vt);
      PackAllSnoc(sent, vt, depth, premultiply, projmodelview);
      AppendAssoc(s0, PackAll(sent, depth, premultiply, projmodelview), rec);
    }

    /** The tessellator's vertex callback: at each triangle boundary it
        reserves room for a whole triangle before writing. `sent` are the
        vertices of the current fill delivered so far, whose records follow
        `s0`; the pending count stays in step with them, so no triangle is
        split between two draws. */
    method TessVertex(vt: Vertex, ghost s0: seq<Word>, ghost sent: seq<Vertex>)
      requires Valid() && DrawsWhole(gl) && usedVerts % 3 == |sent| % 3
      requires Submitted() == s0 + PackAll(sent, depth, premultiply, projmodelview)
      modifies this, vertexData
      ensures Valid() && DrawsWhole(gl) && usedVerts % 3 == |sent + [vt]| % 3
      ensures old(usedVerts) % 3 == 0 && old(usedVerts) + 3 > MaxVerts ==>
                gl == old(gl) + old(FlushCalls()) && usedVerts == 1
      ensures !(old(usedVerts) % 3 == 0 && old(usedVerts) + 3 > MaxVerts) ==>
                gl == old(gl) && usedVerts == old(usedVerts) + 1
      ensures Submitted() == s0 + PackAll(sent + [vt], depth, premultiply, projmodelview)
      ensures tex == old(tex) && depth == old(depth) && depthStep == old(depthStep)
      ensures projmodelview == old(projmodelview)
    {
      PhaseStep(usedVerts, |sent|);
      if usedVerts % 3 == 0 {
        Check(3);
      }
      Put(vt, s0, sent);
    }

    /** incrementDepth: one step down; once the cursor is below
        -(1 - 2^-11) the batch is drawn, the depth buffer cleared and the
        cursor restarted at 1.0 before the step. */
    method IncrementDepth()
      requires Valid()
      modifies this
      ensures Valid()
      ensures depthStep == NextStep(old(depthStep))
      ensures old(depth) < -LargestNumberLessThanOne ==>
                gl == old(gl) + old(FlushCalls()) + [ClearDepth] && usedVerts == 0
                && depth == 1.0 - SmallestDepthIncrement
      ensures !(old(depth) < -LargestNumberLessThanOne) ==>
                gl == old(gl) && usedVerts == old(usedVerts)
                && depth == old(depth) - SmallestDepthIncrement && depth < old(depth)
      ensures Submitted() == old(Submitted())
      ensures tex == old(tex) && projmodelview == old(projmodelview)
      ensures old(WholeTriangles()) ==> WholeTriangles()
    {
      ExhaustedIff(depthStep);
      if depth < -LargestNumberLessThanOne {
        FlushBuffer();
        DrawnAppend(gl, ClearDepth);
        DrawsAppend(gl, ClearDepth);
        gl := gl + [ClearDepth];
        depth := 1.0;
        depthStep := 0;
      }
      depth := depth - SmallestDepthIncrement;
      depthStep := depthStep + 1;
    }

    /** A matrix change (preMatrixChanged then the host's update): without
        pre-multiplication the matrix is a draw uniform, so the pending
        batch is drawn under the old matrix first. */
    method MatrixChanged(m: Affine)
      requires Valid()
      modifies this
      ensures Valid()
      ensures projmodelview == m
      ensures !premultiply ==> gl == old(gl) + old(FlushCalls()) && usedVerts == 0
      ensures premultiply ==> gl == old(gl) && usedVerts == old(usedVerts)
      ensures Submitted() == old(Submitted())
      ensures tex == old(tex) && depth == old(depth) && depthStep == old(depthStep)
      ensures old(WholeTriangles()) ==> WholeTriangles()
    {
      if !premultiply {
        FlushBuffer();
      }
      projmodelview := m;
    }
  }
}
