/**
  The bookkeeping of the stroke renderer: how many polyline points it has
  taken, which of them it remembers (first, second, previous, last), and
  which pieces of outline each lineVertex and endLine call draws.

  The triangle coordinates (leg offsets, miter bisectors, arc joins and
  caps) are floating-point geometry; a drawn piece is recorded by the
  polyline points it belongs to. Whether a corner is mitred (its two leg
  quads meet on the bisector, with no join triangles) depends on the join
  style and on the leg directions, so it is a parameter of the line.
 */
module Stroke {
  import opened Records

  datatype Point = Point(x: real, y: real)

  /** A piece of outline between two polyline points. */
  datatype Segment = Segment(a: Point, b: Point)

  /** What the stroke renderer has drawn, piece by piece and by kind:
      plain segment quads (singleLine), the two triangles of each thick leg,
      the join triangles at corners that are not mitred, and round caps. */
  datatype Drawn = Drawn(singles: seq<Segment>, legs: seq<Segment>, joins: seq<Point>, caps: seq<Point>)

  /** Below this half-width every line is drawn as plain segment quads. */
  const LineDetailLimit: real := 1.0

  /** Whether the corner at b, between the legs a-b and b-c, is mitred. */
  type MiterTest = (Point, Point, Point) -> bool

  /** The input with consecutive repeats dropped, as lineVertex drops a
      point at the position of the last one. */
  function Dedup(input: seq<Point>): (d: seq<Point>)
    ensures |d| <= |input|
    ensures input != [] ==> d != [] && d[|d| - 1] == input[|input| - 1] && d[0] == input[0]
  {
    if input == [] then []
    else
      var front := Dedup(input[..|input| - 1]);
      if front != [] && front[|front| - 1] == input[|input| - 1] then front
      else front + [input[|input| - 1]]
  }

  /** No two consecutive points coincide. */
  ghost predicate NoRepeats(pts: seq<Point>)
  {
    forall i | 0 < i < |pts| :: pts[i - 1] != pts[i]
  }

  lemma DedupSnoc(input: seq<Point>, v: Point)
    ensures var d := Dedup(input);
            Dedup(input + [v]) == if d != [] && d[|d| - 1] == v then d else d + [v]
  {
    assert (input + [v])[..|input|] == input;
  }

  /** The points kept never repeat consecutively... */
  lemma {:induction false} DedupNoRepeats(input: seq<Point>)
    ensures NoRepeats(Dedup(input))
  {
    if input != [] {
      DedupNoRepeats(input[..|input| - 1]);
    }
  }

  /** ...and an input without consecutive repeats is kept whole. */
  lemma {:induction false} DedupKeepsClean(input: seq<Point>)
    requires NoRepeats(input)
    ensures Dedup(input) == input
  {
    if input != [] {
      var front := input[..|input| - 1];
      assert NoRepeats(front) by {
        forall i | 0 < i < |front|
          ensures front[i - 1] != front[i]
        {
          assert front[i - 1] == input[i - 1] && front[i] == input[i];
        }
      }
      DedupKeepsClean(front);
      assert front + [input[|input| - 1]] == input;
    }
  }

  /** The segments of a polyline, from each point to the next. */
  function Path(pts: seq<Point>): (r: seq<Segment>)
  {
    if |pts| < 2 then [] else Path(pts[..|pts| - 1]) + [Segment(pts[|pts| - 2], pts[|pts| - 1])]
  }

  lemma PathSnoc(pts: seq<Point>, v: Point)
    requires pts != []
    ensures Path(pts + [v]) == Path(pts) + [Segment(pts[|pts| - 1], v)]
  {
    assert (pts + [v])[..|pts|] == pts;
  }

  /** Segment i of a polyline runs from point i to point i + 1. */
  lemma {:induction false} PathAt(pts: seq<Point>)
    ensures |Path(pts)| == if |pts| < 2 then 0 else |pts| - 1
    ensures forall i | 0 <= i < |Path(pts)| :: Path(pts)[i] == Segment(pts[i], pts[i + 1])
  {
    if |pts| >= 2 {
      PathAt(pts[..|pts| - 1]);
    }
  }

  /** Going round a closed ring from its second point visits the ring's
      segments once each, the first of them last. */
  lemma RotatedPath(ring: seq<Point>)
    requires |ring| >= 2 && ring[|ring| - 1] == ring[0]
    ensures Path(ring[1..] + [ring[1]]) == Path(ring)[1..] + Path(ring)[..1]
  {
    var tail := ring[1..];
    PathAt(ring);
    PathAt(tail);
    assert Path(tail) == Path(ring)[1..];
    PathSnoc(tail, ring[1]);
  }

  /** The points of a polyline strictly between its ends. */
  function Inner(pts: seq<Point>): (r: seq<Point>)
  {
    if |pts| < 2 then [] else pts[1..|pts| - 1]
  }

  /** The corners of a thick line that get join triangles: every point
      between the ends whose corner is not mitred, in order. */
  function Corners(pts: seq<Point>, mitred: MiterTest): (r: seq<Point>)
  {
    if |pts| < 3 then []
    else
      var n := |pts|;
      Corners(pts[..n - 1], mitred) + (if mitred(pts[n - 3], pts[n - 2], pts[n - 1]) then [] else [pts[n - 2]])
  }

  /** What the lineVertex call that completes the points `pts` draws, on
      top of `d`: nothing for the first point; a plain segment from the
      last point for a thin line; for a thick line nothing for the second
      point, and from the third point on the join at the previous point
      (unless mitred), preceded from the fourth point on by the leg before
      it, whose far end is only known now. */
  function VertexDrawn(d: Drawn, pts: seq<Point>, thin: bool, mitred: MiterTest): (r: Drawn)
    requires pts != []
  {
    var n := |pts|;
    if n == 1 then d
    else if thin then d.(singles := d.singles + [Segment(pts[n - 2], pts[n - 1])])
    else if n == 2 then d
    else
      d.(legs := d.legs + (if n == 3 then [] else [Segment(pts[n - 3], pts[n - 2])]),
         joins := d.joins + (if mitred(pts[n - 3], pts[n - 2], pts[n - 1]) then [] else [pts[n - 2]]))
  }

  /** What the lineVertex calls of a line through `pts` have drawn on top
      of `base`: a thin line, its segments; a thick line, the legs between
      its inner points and the joins at its corners. */
  function LineDrawn(base: Drawn, pts: seq<Point>, thin: bool, mitred: MiterTest): (r: Drawn)
  {
    if thin then base.(singles := base.singles + Path(pts))
    else base.(legs := base.legs + Path(Inner(pts)), joins := base.joins + Corners(pts, mitred))
  }

  lemma CornersSnoc(pts: seq<Point>, v: Point, mitred: MiterTest)
    requires |pts| >= 2
    ensures Corners(pts + [v], mitred)
         == Corners(pts, mitred) + (if mitred(pts[|pts| - 2], pts[|pts| - 1], v) then [] else [pts[|pts| - 1]])
  {
    var w, n := pts + [v], |pts| + 1;
    assert w[..n - 1] == pts;
    assert w[n - 3] == pts[n - 3] && w[n - 2] == pts[n - 2] && w[n - 1] == v;
    assert Corners(w, mitred)
        == Corners(w[..n - 1], mitred) + (if mitred(w[n - 3], w[n - 2], w[n - 1]) then [] else [w[n - 2]]);
  }

  lemma InnerPathSnoc(pts: seq<Point>, v: Point)
    requires |pts| >= 2
    ensures Path(Inner(pts + [v]))
         == Path(Inner(pts)) + (if |pts| == 2 then [] else [Segment(pts[|pts| - 2], pts[|pts| - 1])])
  {
    var n := |pts|;
    assert Inner(pts + [v]) == Inner(pts) + [pts[n - 1]];
    if n >= 3 {
      PathSnoc(Inner(pts), pts[n - 1]);
    }
  }

  /** Each lineVertex call extends what its line has drawn by what it
      draws itself. */
  lemma LineDrawnStep(base: Drawn, pts: seq<Point>, v: Point, thin: bool, mitred: MiterTest)
    ensures LineDrawn(base, pts + [v], thin, mitred)
         == VertexDrawn(LineDrawn(base, pts, thin, mitred), pts + [v], thin, mitred)
  {
    var n := |pts|;
    if thin {
      if n >= 1 {
        PathSnoc(pts, v);
        AppendAssoc(base.singles, Path(pts), [Segment(pts[n - 1], v)]);
      }
    } else if n >= 2 {
      InnerPathSnoc(pts, v);
      AppendAssoc(base.legs, Path(Inner(pts)), if n == 2 then [] else [Segment(pts[n - 2], pts[n - 1])]);
      CornersSnoc(pts, v, mitred);
      AppendAssoc(base.joins, Corners(pts, mitred), if mitred(pts[n - 2], pts[n - 1], v) then [] else [pts[n - 1]]);
    } else {
      assert Inner(pts + [v]) == [] && Inner(pts) == [];
    }
  }

  /** The points of a line after endLine: a closed thick line of three or
      more points runs through its first point (unless it already ends
      there) and then its second point once more. */
  function EndPoints(pts: seq<Point>, closed: bool, thin: bool): (r: seq<Point>)
  {
    if |pts| < 3 || thin || !closed then pts
    else
      var ring := if pts[|pts| - 1] == pts[0] then pts else pts + [pts[0]];
      ring + [pts[1]]
  }

  /** What endLine draws to close a thick line of three or more points: it
      feeds the first point (unless the line already ends there) and the
      second point through lineVertex again, then draws the leg from the
      first point to the second. */
  function ClosedDrawn(d: Drawn, pts: seq<Point>, mitred: MiterTest): (r: Drawn)
    requires |pts| >= 3
  {
    var q := EndPoints(pts, true, false);
    var d1 := if pts[|pts| - 1] == pts[0] then d else VertexDrawn(d, q[..|q| - 1], false, mitred);
    var d2 := VertexDrawn(d1, q, false, mitred);
    d2.(legs := d2.legs + [Segment(pts[0], pts[1])])
  }

  /** What endLine draws on top of `d` for a line through `pts`: a
      two-point line, one plain segment whatever its width; a thin line,
      the closing segment if closed; a closed thick line, what feeding its
      first and second points again draws, then the leg from the first
      point to the second; an open thick line, its last and first legs,
      and round caps at both ends when asked. */
  function EndDrawn(d: Drawn, pts: seq<Point>, closed: bool, thin: bool, mitred: MiterTest, roundCap: bool): (r: Drawn)
  {
    var n := |pts|;
    if n < 2 then d
    else if n == 2 then d.(singles := d.singles + [Segment(pts[0], pts[1])])
    else if thin then
      if closed then d.(singles := d.singles + [Segment(pts[n - 1], pts[0])]) else d
    else if closed then ClosedDrawn(d, pts, mitred)
    else
      d.(legs := d.legs + [Segment(pts[n - 2], pts[n - 1]), Segment(pts[0], pts[1])],
         caps := d.caps + (if roundCap then [pts[n - 1], pts[0]] else []))
  }

  /** A thin line of other than two points draws one plain segment per
      pair of consecutive points, plus the segment back to the first point
      when closed, and nothing else. */
  lemma ThinLine(base: Drawn, pts: seq<Point>, closed: bool, mitred: MiterTest, roundCap: bool)
    requires |pts| != 2
    ensures EndDrawn(LineDrawn(base, pts, true, mitred), pts, closed, true, mitred, roundCap)
         == base.(singles := base.singles + Path(if closed && |pts| >= 3 then pts + [pts[0]] else pts))
  {
    if closed && |pts| >= 3 {
      PathSnoc(pts, pts[0]);
      AppendAssoc(base.singles, Path(pts), [Segment(pts[|pts| - 1], pts[0])]);
    }
  }

  /** A two-point line is drawn as a plain segment: once for a thick line,
      but twice for a thin one, whose lineVertex call has already drawn it. */
  lemma TwoPointLine(base: Drawn, a: Point, b: Point, closed: bool, thin: bool, mitred: MiterTest, roundCap: bool)
    ensures EndDrawn(LineDrawn(base, [a, b], thin, mitred), [a, b], closed, thin, mitred, roundCap)
         == base.(singles := base.singles + (if thin then [Segment(a, b), Segment(a, b)] else [Segment(a, b)]))
  {
    assert [a, b][..1] == [a];
    assert Path([a, b]) == [Segment(a, b)];
  }

  /** The legs between the inner points, followed by the last leg, are the
      legs of the line without its first point. */
  lemma InnerPathLast(pts: seq<Point>)
    requires |pts| >= 3
    ensures Path(Inner(pts)) + [Segment(pts[|pts| - 2], pts[|pts| - 1])] == Path(pts[1..])
  {
    var n := |pts|;
    assert Inner(pts) + [pts[n - 1]] == pts[1..];
    PathSnoc(Inner(pts), pts[n - 1]);
  }

  /** An open thick line of three or more points draws every leg once
      (the first one last), a join at each corner that is not mitred,
      and round caps at its two ends when asked. */
  lemma OpenThickLine(base: Drawn, pts: seq<Point>, mitred: MiterTest, roundCap: bool)
    requires |pts| >= 3
    ensures EndDrawn(LineDrawn(base, pts, false, mitred), pts, false, false, mitred, roundCap)
         == base.(legs := base.legs + Path(pts[1..]) + [Segment(pts[0], pts[1])],
                  joins := base.joins + Corners(pts, mitred),
                  caps := base.caps + (if roundCap then [pts[|pts| - 1], pts[0]] else []))
  {
    var n := |pts|;
    InnerPathLast(pts);
    AppendAssoc(base.legs, Path(Inner(pts)), [Segment(pts[n - 2], pts[n - 1])]);
    assert [Segment(pts[n - 2], pts[n - 1]), Segment(pts[0], pts[1])]
        == [Segment(pts[n - 2], pts[n - 1])] + [Segment(pts[0], pts[1])];
    AppendAssoc(base.legs + Path(Inner(pts)), [Segment(pts[n - 2], pts[n - 1])], [Segment(pts[0], pts[1])]);
  }

  /** A closed thick line of three or more points draws what its line
      through the end points draws, then the leg from the first point to
      the second: every leg of the closed ring once, starting from the
      second point, and a join at every corner of the ring that is not
      mitred. */
  lemma ClosedThickLine(base: Drawn, pts: seq<Point>, mitred: MiterTest, roundCap: bool)
    requires |pts| >= 3
    ensures var q := EndPoints(pts, true, false);
            (EndDrawn(LineDrawn(base, pts, false, mitred), pts, true, false, mitred, roundCap)
             == base.(legs := base.legs + Path(q[1..]), joins := base.joins + Corners(q, mitred)))
  {
    var n := |pts|;
    var q := EndPoints(pts, true, false);
    var q1 := q[..|q| - 1];
    if pts[n - 1] == pts[0] {
      assert q1 == pts;
    } else {
      assert q1 == pts + [pts[0]];
      LineDrawnStep(base, pts, pts[0], false, mitred);
    }
    assert q == q1 + [pts[1]];
    LineDrawnStep(base, q1, pts[1], false, mitred);
    assert Inner(q) + [pts[1]] == q[1..];
    PathSnoc(Inner(q), pts[1]);
  }

  /** The legs a closed thick line draws are the segments of its closed
      ring, each once, the one out of the first point last. */
  lemma ClosedRingLegs(pts: seq<Point>)
    requires |pts| >= 3
    ensures var q := EndPoints(pts, true, false);
            var ring := q[..|q| - 1];
            ring[0] == ring[|ring| - 1] == pts[0]
            && Path(q[1..]) == Path(ring)[1..] + Path(ring)[..1]
  {
    var q := EndPoints(pts, true, false);
    var ring := q[..|q| - 1];
    assert q == ring + [ring[1]];
    assert q[1..] == ring[1..] + [ring[1]];
    RotatedPath(ring);
  }

  /** The points a stroke renderer keeps track of: the points it has
      kept, none repeating the one before, their number, and the first,
      second (thick lines only), previous and last of them. */
  ghost predicate Remembers(pts: seq<Point>, count: nat, f: Point, s: Point, p: Point, l: Point, thin: bool)
  {
    && NoRepeats(pts) && count == |pts|
    && (pts != [] ==> f == pts[0] && l == pts[|pts| - 1])
    && (|pts| >= 2 ==> p == pts[|pts| - 2])
    && (|pts| >= 2 && !thin ==> s == pts[1])
  }

  /** Taking a point other than the last keeps track of it. */
  lemma TakeStep(pts: seq<Point>, count: nat, f: Point, s: Point, p: Point, l: Point, thin: bool, v: Point)
    requires Remembers(pts, count, f, s, p, l, thin) && !(count > 0 && v == l)
    ensures Remembers(pts + [v], count + 1, if count == 0 then v else f,
                      if count == 1 && !thin then v else s, l, v, thin)
  {
  }

  class StrokeRenderer {
    var lineVertexCount: nat
    /** The first, second, previous and last points of the line. */
    var f: Point
    var s: Point
    var p: Point
    var l: Point
    /** Half the stroke weight. */
    var r: real
    /** The join decision and the cap style of the current line. */
    var mitred: MiterTest
    var roundCap: bool

    /** The points fed to the current line, and those it kept. */
    ghost var fed: seq<Point>
    ghost var pts: seq<Point>
    /** Everything drawn, and what had been drawn when the line began. */
    ghost var drawn: Drawn
    ghost var atBegin: Drawn

    /** Whether the current line is drawn as plain segments. */
    function Thin(): (r: bool)
      reads this
    {
      r < LineDetailLimit
    }

    ghost predicate Valid()
      reads this
    {
      Remembers(pts, lineVertexCount, f, s, p, l, Thin())
    }

    /** The points kept are the points fed, less consecutive repeats. */
    ghost predicate Deduped()
      reads this
    {
      pts == Dedup(fed)
    }

    /** Since beginLine, the line has drawn what its points draw. */
    ghost predicate Drawing()
      reads this
    {
      drawn == LineDrawn(atBegin, pts, Thin(), mitred)
    }

    constructor ()
      ensures Valid() && Deduped() && Drawing() && lineVertexCount == 0
      ensures drawn == Drawn([], [], [], [])
    {
      lineVertexCount := 0;
      f, s, p, l := Point(0.0, 0.0), Point(0.0, 0.0), Point(0.0, 0.0), Point(0.0, 0.0);
      r := 0.0;
      mitred := (a: Point, b: Point, c: Point) => false;
      roundCap := false;
      fed, pts := [], [];
      drawn := Drawn([], [], [], []);
      atBegin := drawn;
    }

    /** beginLine: a new, empty line of half-width weight / 2. */
    method BeginLine(weight: real, joins: MiterTest, round: bool)
      modifies this
      ensures Valid() && Deduped() && Drawing()
      ensures lineVertexCount == 0 && fed == []
      ensures r == weight * 0.5 && mitred == joins && roundCap == round
      ensures drawn == old(drawn)
    {
      lineVertexCount := 0;
      r := weight * 0.5;
      mitred := joins;
      roundCap := round;
      fed, pts := [], [];
      atBegin := drawn;
    }

    /** lineVertex: a point at the position of the last one is dropped;
        any other is kept, and draws what its arrival completes. */
    method LineVertex(v: Point)
      requires Valid()
      modifies this
      ensures Valid() && fed == old(fed) + [v]
      ensures old(lineVertexCount) > 0 && v == old(l) ==> pts == old(pts) && drawn == old(drawn)
      ensures !(old(lineVertexCount) > 0 && v == old(l)) ==>
                pts == old(pts) + [v] && drawn == VertexDrawn(old(drawn), pts, Thin(), mitred)
      ensures old(Deduped()) ==> Deduped()
      ensures old(Drawing()) ==> Drawing()
      ensures r == old(r) && mitred == old(mitred) && roundCap == old(roundCap) && atBegin == old(atBegin)
    {
      DedupSnoc(fed, v);
      if lineVertexCount > 0 && v == l {
        fed := fed + [v];
        return;
      }
      LineDrawnStep(atBegin, pts, v, Thin(), mitred);
      TakePoint(v);
    }

    /** The rest of lineVertex, for a point that is kept: remembers it and
        draws what its arrival completes. */
    method TakePoint(v: Point)
      requires Valid() && !(lineVertexCount > 0 && v == l)
      modifies this
      ensures Valid() && fed == old(fed) + [v]
      ensures pts == old(pts) + [v] && drawn == VertexDrawn(old(drawn), pts, Thin(), mitred)
      ensures r == old(r) && mitred == old(mitred) && roundCap == old(roundCap) && atBegin == old(atBegin)
    {
      TakeStep(pts, lineVertexCount, f, s, p, l, Thin(), v);
      fed := fed + [v];
      if lineVertexCount == 0 {
        f := v;
      } else if r < LineDetailLimit {
        drawn := drawn.(singles := drawn.singles + [Segment(l, v)]);
      } else if lineVertexCount == 1 {
        s := v;
      } else {
        ghost var leg: seq<Segment> := [];
        if lineVertexCount != 2 {
          leg := [Segment(p, l)];
        }
        ghost var join: seq<Point> := [];
        if !mitred(p, l, v) {
          join := [l];
        }
        drawn := drawn.(legs := drawn.legs + leg, joins := drawn.joins + join);
      }
      pts := pts + [v];
      p := l;
      l := v;
      lineVertexCount := lineVertexCount + 1;
    }

    /** endLine: finishes the line as EndDrawn describes. */
    method EndLine(closed: bool)
      requires Valid()
      modifies this
      ensures Valid()
      ensures pts == EndPoints(old(pts), closed, Thin())
      ensures drawn == EndDrawn(old(drawn), old(pts), closed, Thin(), mitred, roundCap)
      ensures old(Deduped()) ==> Deduped()
      ensures r == old(r) && mitred == old(mitred) && roundCap == old(roundCap) && atBegin == old(atBegin)
    {
      if lineVertexCount < 2 {
        return;
      }
      if lineVertexCount == 2 {
        drawn := drawn.(singles := drawn.singles + [Segment(p, l)]);
        return;
      }
      if r < LineDetailLimit {
        if closed {
          drawn := drawn.(singles := drawn.singles + [Segment(l, f)]);
        }
        return;
      }
      if closed {
        CloseThickLine();
      } else {
        drawn := drawn.(legs := drawn.legs + [Segment(p, l), Segment(f, s)],
                        caps := drawn.caps + (if roundCap then [l, f] else []));
      }
    }

    /** The closed branch of endLine for a thick line: feeds the first and
        second points again, then draws the leg between them. */
    method CloseThickLine()
      requires Valid() && lineVertexCount >= 3 && !Thin()
      modifies this
      ensures Valid()
      ensures pts == EndPoints(old(pts), true, false)
      ensures drawn == EndDrawn(old(drawn), old(pts), true, false, mitred, roundCap)
      ensures old(Deduped()) ==> Deduped()
      ensures r == old(r) && mitred == old(mitred) && roundCap == old(roundCap) && atBegin == old(atBegin)
    {
      assert pts[0] != pts[1];
      LineVertex(f);
      LineVertex(s);
      drawn := drawn.(legs := drawn.legs + [Segment(f, s)]);
    }
  }
}
