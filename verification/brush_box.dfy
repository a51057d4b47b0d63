/** The bounding box of a brush stroke as the brush renderer computes it:
    the seedless `reduce` to the rightmost and lowest samples, the box size
    measured from the stroke's `position`, and each dot's offset inside it. */
module BrushBox {
  import opened Geometry

  /** `positions.reduce((prv, cur) => prv[axis] < cur[axis] ? cur : prv)`: a
      left fold seeded with the first sample, so a later sample replaces the
      running maximum only when it is strictly larger. */
  function Farthest(positions: seq<Position>, axis: Axis): (r: Position)
    requires |positions| > 0
    ensures r in positions
    ensures forall p :: p in positions ==> Coord(p, axis) <= Coord(r, axis)
    ensures exists k :: 0 <= k < |positions| && positions[k] == r &&
              forall j :: 0 <= j < k ==> Coord(positions[j], axis) < Coord(r, axis)
  {
    if |positions| == 1 then positions[0]
    else
      var prv := Farthest(positions[..|positions| - 1], axis);
      var cur := positions[|positions| - 1];
      assert positions == positions[..|positions| - 1] + [cur];
      if Coord(prv, axis) < Coord(cur, axis) then cur else prv
  }

  /** The rightmost sample (`maxLeft`). */
  function MaxLeft(positions: seq<Position>): (r: Position)
    requires |positions| > 0
    ensures r in positions && forall p :: p in positions ==> p.left <= r.left
    ensures exists k :: 0 <= k < |positions| && positions[k] == r &&
              forall j :: 0 <= j < k ==> positions[j].left < r.left
  {
    Farthest(positions, Horizontal)
  }

  /** The lowest sample (`maxTop`). */
  function MaxTop(positions: seq<Position>): (r: Position)
    requires |positions| > 0
    ensures r in positions && forall p :: p in positions ==> p.top <= r.top
    ensures exists k :: 0 <= k < |positions| && positions[k] == r &&
              forall j :: 0 <= j < k ==> positions[j].top < r.top
  {
    Farthest(positions, Vertical)
  }

  /** The rendered box: `|position - maxLeft|` wide and `|position - maxTop|` high. */
  function BoxSize(position: Position, positions: seq<Position>): (r: Size)
    requires |positions| > 0
    ensures r.width >= 0.0 && r.height >= 0.0
  {
    Size(Abs(position.left - MaxLeft(positions).left), Abs(position.top - MaxTop(positions).top))
  }

  /** Each dot is drawn at its sample minus the stroke's `position`. */
  function Offsets(position: Position, positions: seq<Position>): (r: seq<Position>)
    ensures |r| == |positions|
    ensures forall i :: 0 <= i < |r| ==>
              r[i].left + position.left == positions[i].left && r[i].top + position.top == positions[i].top
  {
    seq(|positions|, i requires 0 <= i < |positions| =>
      Position(positions[i].left - position.left, positions[i].top - position.top))
  }

  /** The stroke's `position` lies above and to the left of every sample. */
  predicate Anchored(position: Position, positions: seq<Position>)
  {
    forall p :: p in positions ==> AboveLeft(position, p)
  }

  /** An anchored stroke's box reaches from its position to its rightmost
      and lowest samples. */
  lemma AnchoredBox(position: Position, positions: seq<Position>)
    requires |positions| > 0
    requires Anchored(position, positions)
    ensures BoxSize(position, positions)
         == Size(MaxLeft(positions).left - position.left, MaxTop(positions).top - position.top)
  {
    assert AboveLeft(position, MaxLeft(positions)) && AboveLeft(position, MaxTop(positions));
  }

  /** When the stroke is anchored at the top-left of its samples, every dot
      lies inside the rendered box, and the box is tight: some dot touches its
      right edge and some dot its bottom edge. */
  lemma DotsInsideBox(position: Position, positions: seq<Position>)
    requires |positions| > 0
    requires Anchored(position, positions)
    ensures var box := BoxSize(position, positions);
            var dots := Offsets(position, positions);
            && (forall d :: d in dots ==> 0.0 <= d.left <= box.width && 0.0 <= d.top <= box.height)
            && (exists d :: d in dots && d.left == box.width)
            && (exists d :: d in dots && d.top == box.height)
  {
    var box := BoxSize(position, positions);
    var dots := Offsets(position, positions);
    var right := MaxLeft(positions);
    var bottom := MaxTop(positions);
    AnchoredBox(position, positions);
    forall d | d in dots
      ensures 0.0 <= d.left <= box.width && 0.0 <= d.top <= box.height
    {
      var i :| 0 <= i < |dots| && dots[i] == d;
      var p := positions[i];
      assert p in positions;
      assert AboveLeft(position, p) && p.left <= right.left && p.top <= bottom.top;
    }
    var i :| 0 <= i < |positions| && positions[i] == right;
    assert dots[i] in dots && dots[i].left == box.width;
    var j :| 0 <= j < |positions| && positions[j] == bottom;
    assert dots[j] in dots && dots[j].top == box.height;
  }

  /** Samples (0, 0), (5, 0), (5, 5) anchored at (0, 0) give a 5 by 5 box. */
  lemma BoxExample(o: Position)
    ensures BoxSize(o, [o, Position(o.left + 5.0, o.top), Position(o.left + 5.0, o.top + 5.0)])
         == Size(5.0, 5.0)
  {
    var ps := [o, Position(o.left + 5.0, o.top), Position(o.left + 5.0, o.top + 5.0)];
    assert MaxLeft(ps).left == o.left + 5.0;
    assert MaxTop(ps).top == o.top + 5.0;
  }
}
