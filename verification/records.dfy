/**
  Value types shared by the batching core of the 2D OpenGL renderer:
  the shape vertex record, the 2D affine part of the projection-modelview
  matrix, the seven-float record layout written into the vertex buffer,
  and the sequence helpers used to describe what was written.
 */
module Records {

  /** A shape vertex (the renderer's TessVertex): position, texture
      coordinate, packed ARGB colour and texture factor (1 textured, 0 flat).
      Java floats are modelled as reals. */
  datatype Vertex = Vertex(x: real, y: real, u: real, v: real, c: int, f: real)

  /** The vertex an empty TessVertex() holds. */
  const Blank: Vertex := Vertex(0.0, 0.0, 0.0, 0.0, 0, 0.0)

  /** One float slot of the vertex buffer. Slot 5 of every record holds the
      colour's int bits reinterpreted as a float, so it is kept as bits. */
  datatype Word = Num(value: real) | ColorBits(argb: int)

  /** The entries of the projection-modelview matrix that a 2D point uses. */
  datatype Affine = Affine(m00: real, m01: real, m03: real, m10: real, m11: real, m13: real)

  const Identity: Affine := Affine(1.0, 0.0, 0.0, 0.0, 1.0, 0.0)

  /** Number of float slots per vertex record: x, y, depth, u, v, colour, factor. */
  const RecordSize: nat := 7

  /** The seven slots written for vertex `vt` at depth `depth`. With
      pre-multiplication on, x and y are transformed by `m` on the way in;
      otherwise they are stored as given and the matrix is a draw uniform. */
  function Packed(vt: Vertex, depth: real, premultiply: bool, m: Affine): (r: seq<Word>)
  {
    var px := if premultiply then m.m00 * vt.x + m.m01 * vt.y + m.m03 else vt.x;
    var py := if premultiply then m.m10 * vt.x + m.m11 * vt.y + m.m13 else vt.y;
    [Num(px), Num(py), Num(depth), Num(vt.u), Num(vt.v), ColorBits(vt.c), Num(vt.f)]
  }

  /** The records of a whole vertex sequence, in order. */
  function PackAll(vs: seq<Vertex>, depth: real, premultiply: bool, m: Affine): (r: seq<Word>)
    ensures |r| == RecordSize * |vs|
  {
    if vs == [] then []
    else PackAll(vs[..|vs| - 1], depth, premultiply, m) + Packed(vs[|vs| - 1], depth, premultiply, m)
  }

  /** Records distribute over concatenation of vertex sequences. */
  lemma {:induction false} PackAllAppend(a: seq<Vertex>, b: seq<Vertex>, depth: real, premultiply: bool, m: Affine)
    ensures PackAll(a + b, depth, premultiply, m)
         == PackAll(a, depth, premultiply, m) + PackAll(b, depth, premultiply, m)
    decreases |b|
  {
    if b == [] {
      assert a + b == a;
    } else {
      var b' := b[..|b| - 1];
      assert (a + b)[..|a + b| - 1] == a + b';
      assert (a + b)[|a + b| - 1] == b[|b| - 1];
      PackAllAppend(a, b', depth, premultiply, m);
    }
  }

  /** Record k of PackAll(vs) is the record of vs[k]. */
  lemma {:induction false} PackAllAt(vs: seq<Vertex>, k: nat, depth: real, premultiply: bool, m: Affine)
    requires k < |vs|
    ensures PackAll(vs, depth, premultiply, m)[RecordSize * k .. RecordSize * k + RecordSize]
         == Packed(vs[k], depth, premultiply, m)
    decreases |vs|
  {
    var front := vs[..|vs| - 1];
    if k < |vs| - 1 {
      PackAllAt(front, k, depth, premultiply, m);
    }
  }

  /** Every index of `idx` is below n. */
  ghost predicate InRange(idx: seq<nat>, n: nat)
  {
    forall j | 0 <= j < |idx| :: idx[j] < n
  }

  /** The vertices selected by an index list, in index order. */
  function Pick(verts: seq<Vertex>, idx: seq<nat>): (r: seq<Vertex>)
    requires InRange(idx, |verts|)
    ensures |r| == |idx|
    ensures forall j | 0 <= j < |idx| :: r[j] == verts[idx[j]]
  {
    seq(|idx|, j requires 0 <= j < |idx| => verts[idx[j]])
  }

  lemma PickAppend(verts: seq<Vertex>, a: seq<nat>, b: seq<nat>)
    requires InRange(a, |verts|) && InRange(b, |verts|)
    ensures InRange(a + b, |verts|)
    ensures Pick(verts, a + b) == Pick(verts, a) + Pick(verts, b)
  {
    assert forall j | 0 <= j < |a + b| :: (a + b)[j] < |verts| by {
      forall j | 0 <= j < |a + b| ensures (a + b)[j] < |verts| {
        if j >= |a| { assert (a + b)[j] == b[j - |a|]; }
      }
    }
  }

  /** The records of the vertices an index list selects. */
  function Gather(verts: seq<Vertex>, idx: seq<nat>, depth: real, premultiply: bool, m: Affine): (r: seq<Word>)
    requires InRange(idx, |verts|)
    ensures |r| == RecordSize * |idx|
    ensures forall k | 0 <= k < |idx| ::
              r[RecordSize * k .. RecordSize * k + RecordSize] == Packed(verts[idx[k]], depth, premultiply, m)
  {
    var r := PackAll(Pick(verts, idx), depth, premultiply, m);
    forall k | 0 <= k < |idx|
      ensures r[RecordSize * k .. RecordSize * k + RecordSize] == Packed(verts[idx[k]], depth, premultiply, m)
    {
      PackAllAt(Pick(verts, idx), k, depth, premultiply, m);
    }
    r
  }

  lemma PackAllSnoc(vs: seq<Vertex>, v: Vertex, depth: real, premultiply: bool, m: Affine)
    ensures PackAll(vs + [v], depth, premultiply, m) == PackAll(vs, depth, premultiply, m) + Packed(v, depth, premultiply, m)
  {
    assert (vs + [v])[..|vs|] == vs;
  }

  lemma AppendAssoc<T>(a: seq<T>, b: seq<T>, c: seq<T>)
    ensures a + b + c == a + (b + c)
  {
  }

  lemma JoinTriangles<T>(a: T, b: T, c: T, d: T, e: T, f: T)
    ensures [] + [a, b, c] == [a, b, c]
    ensures [a, b, c] + [d, e, f] == [a, b, c, d, e, f]
  {
  }

  lemma PrefixAll<T>(s: seq<T>, k: nat)
    requires k == |s|
    ensures s[..k] == s
  {
  }

  lemma PrefixSnoc<T>(s: seq<T>, i: nat)
    requires i < |s|
    ensures s[..i] + [s[i]] == s[..i + 1]
  {
  }

  /** The concatenation of a sequence of index groups. */
  function Flatten(gs: seq<seq<nat>>): (r: seq<nat>)
  {
    if gs == [] then [] else Flatten(gs[..|gs| - 1]) + gs[|gs| - 1]
  }

  lemma FlattenSnoc(gs: seq<seq<nat>>, k: nat)
    requires k < |gs|
    ensures Flatten(gs[..k + 1]) == Flatten(gs[..k]) + gs[k]
  {
    assert gs[..k + 1][..k] == gs[..k];
  }

  /** Every entry of a flattened group list comes from one of its groups. */
  lemma {:induction false} FlattenBound(gs: seq<seq<nat>>, n: nat)
    requires forall i | 0 <= i < |gs| :: InRange(gs[i], n)
    ensures InRange(Flatten(gs), n)
    decreases |gs|
  {
    if gs != [] {
      var front := gs[..|gs| - 1];
      FlattenBound(front, n);
      var last := gs[|gs| - 1];
      forall j | 0 <= j < |Flatten(gs)| ensures Flatten(gs)[j] < n {
        if j >= |Flatten(front)| {
          assert Flatten(gs)[j] == last[j - |Flatten(front)|];
        } else {
          assert Flatten(gs)[j] == Flatten(front)[j];
        }
      }
    }
  }

  /** The length of a flattened group list whose groups all have length w. */
  lemma {:induction false} FlattenUniform(gs: seq<seq<nat>>, w: nat)
    requires forall i | 0 <= i < |gs| :: |gs[i]| == w
    ensures |Flatten(gs)| == w * |gs|
    decreases |gs|
  {
    if gs != [] {
      var front := gs[..|gs| - 1];
      FlattenUniform(front, w);
      assert |Flatten(gs)| == |Flatten(front)| + w;
      assert w * |gs| == w * |front| + w;
    }
  }
}
