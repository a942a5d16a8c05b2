/**
  The shape accumulation buffer: the vertices of the shape being defined
  between beginShape and endShape, and the indices at which its contours
  start. Both arrays are reused across shapes and double when full; they
  never shrink. A vertex whose (x, y) is already in the shape is dropped,
  because duplicate positions break the polygon tessellator.
 */
module Shapes {
  import opened Records

  /** The primitive kinds beginShape accepts; OtherKind stands for any other
      code, for which endShape draws no fill. */
  datatype Kind = Points | Lines | Triangles | TriangleFan | TriangleStrip | Quads | QuadStrip | Polygon | OtherKind

  /** Some vertex of `s` sits at (x, y). */
  ghost predicate HasXY(s: seq<Vertex>, x: real, y: real)
  {
    exists i | 0 <= i < |s| :: s[i].x == x && s[i].y == y
  }

  /** No two vertices of `s` share a position. */
  ghost predicate DistinctXY(s: seq<Vertex>)
  {
    forall i, j | 0 <= i < j < |s| :: !(s[i].x == s[j].x && s[i].y == s[j].y)
  }

  /** The concatenation of contour rings. */
  function Joined(rings: seq<seq<Vertex>>): (r: seq<Vertex>)
  {
    if rings == [] then [] else Joined(rings[..|rings| - 1]) + rings[|rings| - 1]
  }

  lemma JoinedSnoc(rings: seq<seq<Vertex>>, ring: seq<Vertex>)
    ensures Joined(rings + [ring]) == Joined(rings) + ring
  {
    assert (rings + [ring])[..|rings|] == rings;
  }

  /** Contour starts as recorded by well-nested beginContour calls: strictly
      increasing, the first not negative. */
  ghost predicate WellNested(starts: seq<int>)
  {
    && (|starts| > 0 ==> starts[0] >= 0)
    && forall i, j | 0 <= i < j < |starts| :: starts[i] < starts[j]
  }

  /** Where ring j begins: at 0 for the first ring, else at contour start j - 1. */
  function RingStart(starts: seq<int>, j: nat): (r: int)
    requires j <= |starts|
  {
    if j == 0 then 0 else starts[j - 1]
  }

  /** `ring` is the slice of `verts` from RingStart(starts, j) to starts[j]. */
  ghost predicate RingAt(ring: seq<Vertex>, verts: seq<Vertex>, starts: seq<int>, j: nat)
    requires j < |starts|
  {
    0 <= RingStart(starts, j) <= starts[j] <= |verts| && ring == verts[RingStart(starts, j) .. starts[j]]
  }

  /** Ring j is the slice of `verts` from RingStart(starts, j) to starts[j]. */
  ghost predicate RingsMatch(rings: seq<seq<Vertex>>, verts: seq<Vertex>, starts: seq<int>)
  {
    && |rings| <= |starts|
    && forall j | 0 <= j < |rings| :: RingAt(rings[j], verts, starts, j)
  }

  lemma RingsMatchSnoc(rings: seq<seq<Vertex>>, ring: seq<Vertex>, verts: seq<Vertex>, starts: seq<int>)
    requires RingsMatch(rings, verts, starts) && |rings| < |starts|
    requires RingAt(ring, verts, starts, |rings|)
    ensures RingsMatch(rings + [ring], verts, starts)
  {
    var all := rings + [ring];
    forall j | 0 <= j < |all|
      ensures RingAt(all[j], verts, starts, j)
    {
      if j < |rings| {
        assert all[j] == rings[j];
      }
    }
  }

  /** The state of the contour walk after i vertices: the finished rings
      match their slices, the open ring runs from its start to i, and the
      next recorded start has not been passed. */
  ghost predicate SplitInv(verts: seq<Vertex>, starts: seq<int>, done: seq<seq<Vertex>>,
                           ring: seq<Vertex>, b: int, c: nat, i: nat)
  {
    && |done| == c && c < |starts| && i <= starts[c] && i <= |verts|
    && b == RingStart(starts, c) && 0 <= b <= i && ring == verts[b .. i]
    && RingsMatch(done, verts, starts)
  }

  lemma SplitNewRing(verts: seq<Vertex>, starts: seq<int>, done: seq<seq<Vertex>>,
                     ring: seq<Vertex>, b: int, c: nat, i: nat)
    requires WellNested(starts) && SplitInv(verts, starts, done, ring, b, c, i)
    requires starts[c] == i && c + 1 < |starts|
    ensures SplitInv(verts, starts, done + [ring], [], i, c + 1, i) && i < starts[c + 1]
  {
    RingsMatchSnoc(done, ring, verts, starts);
  }

  lemma SplitAddVertex(verts: seq<Vertex>, starts: seq<int>, done: seq<seq<Vertex>>,
                       ring: seq<Vertex>, b: int, c: nat, i: nat)
    requires SplitInv(verts, starts, done, ring, b, c, i)
    requires i < starts[c] && i < |verts|
    ensures SplitInv(verts, starts, done, ring + [verts[i]], b, c, i + 1)
  {
    assert verts[b .. i + 1] == verts[b .. i] + [verts[i]];
  }

  lemma SplitFinish(verts: seq<Vertex>, starts: seq<int>, done: seq<seq<Vertex>>,
                    ring: seq<Vertex>, b: int, c: nat)
    requires WellNested(starts) && SplitInv(verts, starts, done, ring, b, c, |verts|)
    requires starts[|starts| - 1] == |verts|
    ensures |done| + 1 == |starts| && RingsMatch(done + [ring], verts, starts)
  {
    RingsMatchSnoc(done, ring, verts, starts);
  }

  class ShapeBuffer {
    var shapeType: Kind
    var vertCount: nat
    var shapeVerts: array<Vertex>
    var contours: array<int>
    var contourCount: nat

    ghost predicate Valid()
      reads this, shapeVerts
    {
      && 0 < shapeVerts.Length && vertCount <= shapeVerts.Length
      && 0 < contours.Length && contourCount <= contours.Length
      && DistinctXY(shapeVerts[..vertCount])
    }

    /** The vertices of the current shape. */
    ghost function Verts(): (r: seq<Vertex>)
      reads this, shapeVerts
      requires Valid()
    {
      shapeVerts[..vertCount]
    }

    /** The contour starts recorded for the current shape. */
    ghost function Contours(): (r: seq<int>)
      reads this, shapeVerts, contours
      requires Valid()
    {
      contours[..contourCount]
    }

    constructor ()
      ensures Valid() && fresh(shapeVerts) && fresh(contours)
      ensures shapeVerts.Length == 16 && contours.Length == 2
      ensures Verts() == [] && Contours() == []
    {
      shapeType := OtherKind;
      vertCount := 0;
      shapeVerts := new Vertex[16](_ => Blank);
      contours := new int[2];
      contourCount := 0;
    }

    /** beginShape: a new, empty shape of the given kind; storage is kept. */
    method BeginShape(kind: Kind)
      requires Valid()
      modifies this
      ensures Valid()
      ensures shapeType == kind && Verts() == [] && Contours() == []
      ensures shapeVerts == old(shapeVerts) && contours == old(contours)
    {
      shapeType := kind;
      vertCount := 0;
      contourCount := 0;
    }

    /** The duplicate scan of shapeVertex. */
    method ContainsXY(x: real, y: real) returns (found: bool)
      requires Valid()
      ensures found <==> HasXY(Verts(), x, y)
    {
      var i := 0;
      while i < vertCount
        invariant i <= vertCount
        invariant forall k | 0 <= k < i :: !(shapeVerts[k].x == x && shapeVerts[k].y == y)
      {
        if shapeVerts[i].x == x && shapeVerts[i].y == y {
          return true;
        }
        i := i + 1;
      }
      return false;
    }

    /** shapeVertex: drops a vertex at a position already in the shape;
        otherwise stores it at index vertCount, doubling the array first if
        it is full, and keeps every earlier vertex. */
    method ShapeVertex(x: real, y: real, u: real, v: real, c: int, f: real)
      requires Valid()
      modifies this, shapeVerts
      ensures Valid()
      ensures HasXY(old(Verts()), x, y) ==>
                Verts() == old(Verts()) && shapeVerts == old(shapeVerts)
      ensures !HasXY(old(Verts()), x, y) ==>
                Verts() == old(Verts()) + [Vertex(x, y, u, v, c, f)]
      ensures shapeVerts.Length ==
                if !HasXY(old(Verts()), x, y) && old(vertCount) == old(shapeVerts.Length)
                then 2 * old(shapeVerts.Length) else old(shapeVerts.Length)
      ensures shapeVerts != old(shapeVerts) ==> fresh(shapeVerts)
      ensures contours == old(contours) && contourCount == old(contourCount)
      ensures shapeType == old(shapeType)
    {
      var dup := ContainsXY(x, y);
      if dup {
        return;
      }
      if vertCount >= shapeVerts.Length {
        var n := shapeVerts.Length;
        var old_verts := shapeVerts;
        var grown := new Vertex[2 * n](i requires 0 <= i < 2 * n reads old_verts =>
                                         if i < n then old_verts[i] else Blank);
        assert grown[..n] == old_verts[..n];
        shapeVerts := grown;
      }
      ghost var before := shapeVerts[..vertCount];
      shapeVerts[vertCount] := Vertex(x, y, u, v, c, f);
      vertCount := vertCount + 1;
      assert shapeVerts[..vertCount] == before + [Vertex(x, y, u, v, c, f)];
    }

    /** appendContour: records a contour start, doubling the array when full
        and keeping the earlier starts. */
    method AppendContour(vertIndex: int)
      requires Valid()
      modifies this, contours
      ensures Valid()
      ensures Contours() == old(Contours()) + [vertIndex]
      ensures contours.Length ==
                if old(contourCount) == old(contours.Length)
                then 2 * old(contours.Length) else old(contours.Length)
      ensures contours != old(contours) ==> fresh(contours)
      ensures shapeVerts == old(shapeVerts) && vertCount == old(vertCount)
      ensures shapeType == old(shapeType)
    {
      if contourCount >= contours.Length {
        var n := contours.Length;
        var old_starts := contours;
        var grown := new int[2 * n](i requires 0 <= i < 2 * n reads old_starts =>
                                      if i < n then old_starts[i] else 0);
        assert grown[..n] == old_starts[..n];
        contours := grown;
      }
      contours[contourCount] := vertIndex;
      contourCount := contourCount + 1;
    }

    /** The contour loop of the tessellated fill: walks the vertices in
        order and starts a new tessellator contour wherever the next
        recorded start is reached. Every vertex goes to exactly one ring, in
        order; with well-nested starts ring j is the slice between start
        j - 1 and start j. */
    method SplitContours() returns (rings: seq<seq<Vertex>>)
      requires Valid() && 0 < contourCount && contours[contourCount - 1] == vertCount
      ensures Joined(rings) == Verts()
      ensures 1 <= |rings| <= contourCount
      ensures WellNested(Contours()) ==>
                |rings| == contourCount && RingsMatch(rings, Verts(), Contours())
    {
      ghost var verts, starts := Verts(), Contours();
      ghost var wf := WellNested(starts);
      var done: seq<seq<Vertex>> := [];
      var ring: seq<Vertex> := [];
      ghost var b := 0;
      var c := 0;
      var i := 0;
      while i < vertCount
        invariant 0 <= i <= vertCount
        invariant 0 <= c < contourCount
        invariant |done| == c
        invariant Joined(done) + ring == verts[..i]
        invariant wf ==> SplitInv(verts, starts, done, ring, b, c, i)
      {
        if contours[c] == i {
          assert c + 1 < contourCount by {
            assert starts[c] == i < vertCount == starts[contourCount - 1];
          }
          if wf {
            SplitNewRing(verts, starts, done, ring, b, c, i);
          }
          JoinedSnoc(done, ring);
          done := done + [ring];
          ring := [];
          b := i;
          c := c + 1;
        }
        if wf {
          SplitAddVertex(verts, starts, done, ring, b, c, i);
        }
        assert verts[..i + 1] == verts[..i] + [verts[i]];
        ring := ring + [shapeVerts[i]];
        i := i + 1;
      }
      JoinedSnoc(done, ring);
      rings := done + [ring];
      if wf {
        SplitFinish(verts, starts, done, ring, b, c);
      }
    }
  }
}
