/** Brush-stroke sampling (Designer.tsx, mouse-move on a brush): the lattice
    points emitted between the stroke's previous sample and the pointer.
    The four loops of the source are written as the four recursive
    functions below; each one is the loop it names, one iteration per call. */
module Sampling {
  import opened Geometry

  /** The point the slanted branch emits at abscissa `x`: `{ left: x, top: slope * x + intercept }`. */
  function OnSlope(x: real, slope: real, intercept: real): Position
  {
    Position(x, slope * x + intercept)
  }

  /** `for (x = from; x <= to; x++)`, emitting the slanted point at every `x`. */
  function Rightward(x: real, to: real, slope: real, intercept: real): (r: seq<Position>)
    ensures |r| > 0 <==> x <= to
    ensures forall p :: p in r ==> x <= p.left <= to && p == OnSlope(p.left, slope, intercept)
    decreases (to - x).Floor + 1
  {
    if x <= to then [OnSlope(x, slope, intercept)] + Rightward(x + 1.0, to, slope, intercept) else []
  }

  /** `for (x = from; x >= to; x--)`, emitting the slanted point at every `x`. */
  function Leftward(x: real, to: real, slope: real, intercept: real): (r: seq<Position>)
    ensures |r| > 0 <==> x >= to
    ensures forall p :: p in r ==> to <= p.left <= x && p == OnSlope(p.left, slope, intercept)
    decreases (x - to).Floor + 1
  {
    if x >= to then [OnSlope(x, slope, intercept)] + Leftward(x - 1.0, to, slope, intercept) else []
  }

  /** `for (y = from; y < to; y++)`, emitting `{ left, top: y }`. */
  function Downward(left: real, y: real, to: real): (r: seq<Position>)
    ensures |r| > 0 <==> y < to
    ensures forall p :: p in r ==> p.left == left && y <= p.top < to
    decreases (to - y).Floor + 1
  {
    if y < to then [Position(left, y)] + Downward(left, y + 1.0, to) else []
  }

  /** `for (y = from; y > to; y--)`, emitting `{ left, top: y }`. */
  function Upward(left: real, y: real, to: real): (r: seq<Position>)
    ensures |r| > 0 <==> y > to
    ensures forall p :: p in r ==> p.left == left && to < p.top <= y
    decreases (y - to).Floor + 1
  {
    if y > to then [Position(left, y)] + Upward(left, y - 1.0, to) else []
  }

  /** `(pointer.top - last.top) / (pointer.left - last.left)`, for a pointer
      that moved horizontally. */
  function Slope(last: Position, pointer: Position): real
    requires pointer.left != last.left
  {
    (pointer.top - last.top) / (pointer.left - last.left)
  }

  /** `last.top - slope * last.left`: where the line through both points meets x = 0. */
  function Intercept(last: Position, pointer: Position): real
    requires pointer.left != last.left
  {
    last.top - Slope(last, pointer) * last.left
  }

  /** The points a brush move from the last sample `last` to `pointer` appends.
      A finite slope (the pointer moved horizontally) steps along x, both ends
      included; otherwise (an infinite or undefined slope) it steps along y at
      the pointer's x, excluding the pointer's own y. */
  function Samples(last: Position, pointer: Position): (r: seq<Position>)
    ensures forall p :: p in r ==> Within(p.left, last.left, pointer.left)
    ensures pointer.left != last.left ==> |r| > 0
    ensures pointer.left == last.left ==>
              forall p :: p in r ==> p.left == pointer.left && Within(p.top, last.top, pointer.top) && p.top != pointer.top
    ensures pointer.left == last.left ==> (|r| == 0 <==> pointer.top == last.top)
  {
    var dx := pointer.left - last.left;
    if dx != 0.0 then
      var slope := Slope(last, pointer);
      var intercept := Intercept(last, pointer);
      if pointer.left >= last.left then Rightward(last.left, pointer.left, slope, intercept)
      else Leftward(last.left, pointer.left, slope, intercept)
    else if pointer.top >= last.top then Downward(pointer.left, last.top, pointer.top)
    else Upward(pointer.left, last.top, pointer.top)
  }

  /** `p` lies on the straight line through `a` and `b`. */
  predicate Collinear(a: Position, b: Position, p: Position)
  {
    (p.top - a.top) * (b.left - a.left) == (p.left - a.left) * (b.top - a.top)
  }

  /** `p` lies in the axis-aligned box spanned by `a` and `b`. */
  predicate Between(a: Position, b: Position, p: Position)
  {
    Within(p.left, a.left, b.left) && Within(p.top, a.top, b.top)
  }

  lemma {:induction false} RightwardShape(x: real, to: real, slope: real, intercept: real)
    ensures |Rightward(x, to, slope, intercept)| == if x <= to then (to - x).Floor + 1 else 0
    ensures forall i :: 0 <= i < |Rightward(x, to, slope, intercept)| ==>
              Rightward(x, to, slope, intercept)[i] == OnSlope(x + i as real, slope, intercept)
    decreases (to - x).Floor + 1
  {
    if x <= to {
      RightwardShape(x + 1.0, to, slope, intercept);
      var r := Rightward(x, to, slope, intercept);
      var rest := Rightward(x + 1.0, to, slope, intercept);
      assert r == [OnSlope(x, slope, intercept)] + rest;
      forall i | 0 < i < |r|
        ensures r[i] == OnSlope(x + i as real, slope, intercept)
      {
        assert r[i] == rest[i - 1];
      }
    }
  }

  lemma {:induction false} LeftwardShape(x: real, to: real, slope: real, intercept: real)
    ensures |Leftward(x, to, slope, intercept)| == if x >= to then (x - to).Floor + 1 else 0
    ensures forall i :: 0 <= i < |Leftward(x, to, slope, intercept)| ==>
              Leftward(x, to, slope, intercept)[i] == OnSlope(x - i as real, slope, intercept)
    decreases (x - to).Floor + 1
  {
    if x >= to {
      LeftwardShape(x - 1.0, to, slope, intercept);
      var r := Leftward(x, to, slope, intercept);
      var rest := Leftward(x - 1.0, to, slope, intercept);
      assert r == [OnSlope(x, slope, intercept)] + rest;
      forall i | 0 < i < |r|
        ensures r[i] == OnSlope(x - i as real, slope, intercept)
      {
        assert r[i] == rest[i - 1];
      }
    }
  }

  lemma {:induction false} DownwardShape(left: real, y: real, to: real)
    ensures |Downward(left, y, to)| == if y < to then Ceil(to - y) else 0
    ensures forall i :: 0 <= i < |Downward(left, y, to)| ==> Downward(left, y, to)[i] == Position(left, y + i as real)
    decreases (to - y).Floor + 1
  {
    if y < to {
      DownwardShape(left, y + 1.0, to);
      var r := Downward(left, y, to);
      var rest := Downward(left, y + 1.0, to);
      assert r == [Position(left, y)] + rest;
      forall i | 0 < i < |r|
        ensures r[i] == Position(left, y + i as real)
      {
        assert r[i] == rest[i - 1];
      }
    }
  }

  lemma {:induction false} UpwardShape(left: real, y: real, to: real)
    ensures |Upward(left, y, to)| == if y > to then Ceil(y - to) else 0
    ensures forall i :: 0 <= i < |Upward(left, y, to)| ==> Upward(left, y, to)[i] == Position(left, y - i as real)
    decreases (y - to).Floor + 1
  {
    if y > to {
      UpwardShape(left, y - 1.0, to);
      var r := Upward(left, y, to);
      var rest := Upward(left, y - 1.0, to);
      assert r == [Position(left, y)] + rest;
      forall i | 0 < i < |r|
        ensures r[i] == Position(left, y - i as real)
      {
        assert r[i] == rest[i - 1];
      }
    }
  }

  /** A point of the slanted branch whose abscissa lies between the two ends
      lies on the segment from `last` to `pointer`. */
  lemma SlopePointOnSegment(last: Position, pointer: Position, x: real)
    requires pointer.left != last.left
    requires Within(x, last.left, pointer.left)
    ensures var p := OnSlope(x, Slope(last, pointer), Intercept(last, pointer));
            Collinear(last, pointer, p) && Between(last, pointer, p)
  {
    var dx := pointer.left - last.left;
    var dy := pointer.top - last.top;
    var a := x - last.left;
    var slope := Slope(last, pointer);
    assert slope * dx == dy;
    var top := slope * x + Intercept(last, pointer);
    assert top - last.top == slope * a;
    var t := a / dx;
    assert t * dx == a;
    assert slope * a == t * dy by {
      calc {
        slope * a;
        == slope * (t * dx);
        == t * (slope * dx);
        == t * dy;
      }
    }
    assert (top - last.top) * dx == a * dy by {
      calc {
        (top - last.top) * dx;
        == (slope * a) * dx;
        == a * (slope * dx);
        == a * dy;
      }
    }
    FractionInUnit(a, dx);
    if dy >= 0.0 {
      assert 0.0 <= t * dy <= dy by { ScaleWithin(t, dy); }
    } else {
      assert dy <= t * dy <= 0.0 by { ScaleWithin(t, -dy); }
    }
  }

  /** `a / d` lies in [0, 1] when `a` lies between 0 and `d`. */
  lemma FractionInUnit(a: real, d: real)
    requires d != 0.0 && Within(a, 0.0, d)
    ensures 0.0 <= a / d <= 1.0
  {
    assert (a / d) * d == a;
  }

  /** Scaling a non-negative `v` by a factor in [0, 1] stays in [0, v]. */
  lemma ScaleWithin(t: real, v: real)
    requires 0.0 <= t <= 1.0 && v >= 0.0
    ensures 0.0 <= t * v <= v
  {
    assert (1.0 - t) * v >= 0.0;
  }

  /** The slanted line passes through both ends. */
  lemma SlopeEnds(last: Position, pointer: Position)
    requires pointer.left != last.left
    ensures OnSlope(last.left, Slope(last, pointer), Intercept(last, pointer)) == last
    ensures OnSlope(pointer.left, Slope(last, pointer), Intercept(last, pointer)) == pointer
  {
    var dx := pointer.left - last.left;
    var slope := Slope(last, pointer);
    assert slope * dx == pointer.top - last.top;
    assert slope * pointer.left - slope * last.left == slope * dx;
  }

  /** The slanted branch when the pointer moved right. */
  lemma RightwardSamples(last: Position, pointer: Position)
    requires pointer.left > last.left
    ensures var r := Samples(last, pointer);
            && |r| == (pointer.left - last.left).Floor + 1
            && (forall i :: 0 <= i < |r| ==> r[i].left == last.left + i as real)
            && (forall i :: 0 <= i < |r| ==> Collinear(last, pointer, r[i]) && Between(last, pointer, r[i]))
  {
    var slope := Slope(last, pointer);
    var intercept := Intercept(last, pointer);
    var r := Samples(last, pointer);
    assert r == Rightward(last.left, pointer.left, slope, intercept);
    RightwardShape(last.left, pointer.left, slope, intercept);
    forall i | 0 <= i < |r|
      ensures Collinear(last, pointer, r[i]) && Between(last, pointer, r[i])
    {
      assert r[i] == OnSlope(last.left + i as real, slope, intercept);
      assert i <= (pointer.left - last.left).Floor;
      SlopePointOnSegment(last, pointer, last.left + i as real);
    }
  }

  /** The slanted branch when the pointer moved left. */
  lemma LeftwardSamples(last: Position, pointer: Position)
    requires pointer.left < last.left
    ensures var r := Samples(last, pointer);
            && |r| == (last.left - pointer.left).Floor + 1
            && (forall i :: 0 <= i < |r| ==> r[i].left == last.left - i as real)
            && (forall i :: 0 <= i < |r| ==> Collinear(last, pointer, r[i]) && Between(last, pointer, r[i]))
  {
    var slope := Slope(last, pointer);
    var intercept := Intercept(last, pointer);
    var r := Samples(last, pointer);
    assert r == Leftward(last.left, pointer.left, slope, intercept);
    LeftwardShape(last.left, pointer.left, slope, intercept);
    forall i | 0 <= i < |r|
      ensures Collinear(last, pointer, r[i]) && Between(last, pointer, r[i])
    {
      assert r[i] == OnSlope(last.left - i as real, slope, intercept);
      assert i <= (last.left - pointer.left).Floor;
      SlopePointOnSegment(last, pointer, last.left - i as real);
    }
  }

  /** Slanted branch: one point per whole step of x from `last.left` toward
      `pointer.left`, both ends included, each on the line through `last` and
      `pointer` and inside their box; the first point is `last` itself, and the
      last one is the pointer whenever the horizontal move is a whole number. */
  lemma SlantedSamples(last: Position, pointer: Position)
    requires pointer.left != last.left
    ensures var r := Samples(last, pointer);
            var dx := pointer.left - last.left;
            && |r| == Abs(dx).Floor + 1
            && r[0] == last
            && (forall i :: 0 <= i < |r| ==>
                  r[i].left == if dx > 0.0 then last.left + i as real else last.left - i as real)
            && (forall i :: 0 <= i < |r| ==> Collinear(last, pointer, r[i]) && Between(last, pointer, r[i]))
            && (dx == dx.Floor as real ==> r[|r| - 1] == pointer)
  {
    var dx := pointer.left - last.left;
    var slope := Slope(last, pointer);
    var intercept := Intercept(last, pointer);
    var r := Samples(last, pointer);
    SlopeEnds(last, pointer);
    if dx > 0.0 {
      RightwardSamples(last, pointer);
      assert r == Rightward(last.left, pointer.left, slope, intercept);
      RightwardShape(last.left, pointer.left, slope, intercept);
      if dx == dx.Floor as real {
        assert r[|r| - 1] == OnSlope(pointer.left, slope, intercept);
      }
    } else {
      LeftwardSamples(last, pointer);
      assert r == Leftward(last.left, pointer.left, slope, intercept);
      LeftwardShape(last.left, pointer.left, slope, intercept);
      if dx == dx.Floor as real {
        assert (-dx).Floor == -dx.Floor;
        assert r[|r| - 1] == OnSlope(pointer.left, slope, intercept);
      }
    }
  }

  /** Vertical branch (the pointer kept its x): one point per whole step of y
      from `last.top` toward `pointer.top`, at the pointer's x, stopping before
      the pointer's own y; so nothing is emitted exactly when the pointer has
      not moved. */
  lemma VerticalSamples(last: Position, pointer: Position)
    requires pointer.left == last.left
    ensures var r := Samples(last, pointer);
            var dy := pointer.top - last.top;
            && |r| == Ceil(Abs(dy))
            && (|r| == 0 <==> pointer == last)
            && (forall i :: 0 <= i < |r| ==>
                  r[i] == Position(pointer.left, if dy >= 0.0 then last.top + i as real else last.top - i as real))
            && (forall i :: 0 <= i < |r| ==> Between(last, pointer, r[i]) && r[i].top != pointer.top)
  {
    if pointer.top >= last.top {
      DownwardShape(pointer.left, last.top, pointer.top);
    } else {
      UpwardShape(pointer.left, last.top, pointer.top);
    }
  }

  /** Whatever the branch, every emitted point lies in the box spanned by the
      previous sample and the pointer. */
  lemma SamplesBetween(last: Position, pointer: Position)
    ensures forall p :: p in Samples(last, pointer) ==> Between(last, pointer, p)
  {
    if pointer.left != last.left {
      SlantedSamples(last, pointer);
    } else {
      VerticalSamples(last, pointer);
    }
  }

  /** A horizontal move of four units emits five points, the pointer included:
      from (0, 0) to (4, 0) these are (0, 0), (1, 0), (2, 0), (3, 0), (4, 0). */
  lemma HorizontalExample(last: Position)
    ensures Samples(last, Position(last.left + 4.0, last.top))
         == [last, Position(last.left + 1.0, last.top), Position(last.left + 2.0, last.top),
             Position(last.left + 3.0, last.top), Position(last.left + 4.0, last.top)]
  {
    var p := Position(last.left + 4.0, last.top);
    var r := Samples(last, p);
    SlantedSamples(last, p);
    assert |r| == 5;
    forall i | 0 <= i < 5
      ensures r[i] == Position(last.left + i as real, last.top)
    {
      assert Collinear(last, p, r[i]);
    }
  }

  /** A vertical move of three units emits three points and leaves the
      pointer's own position out: from (0, 0) to (0, 3) these are (0, 0),
      (0, 1), (0, 2). */
  lemma VerticalExample(last: Position)
    ensures Samples(last, Position(last.left, last.top + 3.0))
         == [last, Position(last.left, last.top + 1.0), Position(last.left, last.top + 2.0)]
  {
    VerticalSamples(last, Position(last.left, last.top + 3.0));
  }
}
