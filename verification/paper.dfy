/** The paper: the adapters that turn the gesture library's drag, resize and
    rotate events into item updates, the gesture capabilities offered for the
    selected item, and the clip path of the drawing area. */
module Paper {
  import opened Options
  import opened Geometry
  import opened Items

  /** A drag event: the target's new absolute position. */
  datatype DragEvent = DragEvent(left: real, top: real)

  /** A resize event: the new size, the dragged handle's direction per axis
      (-1 for the left or top handle) and the size change per axis. */
  datatype ResizeEvent = ResizeEvent(width: real, height: real, direction: (int, int), delta: (real, real))

  /** A rotate event: the target's new absolute angle in degrees. */
  datatype RotateEvent = RotateEvent(rotate: real)

  /** The live entry behind the paper's selection, if the handler may emit at
      all: the callback must be present and the selection must have an id. */
  function Target(hasCallback: bool, selected: Option<Item>, items: map<int, Item>): (r: Option<Item>)
    ensures r.Some? <==> hasCallback && selected.Some? && selected.value.itemId.Some?
                         && selected.value.itemId.value in items
    ensures r.Some? ==> r.value == items[selected.value.itemId.value]
  {
    if hasCallback && selected.Some? && selected.value.itemId.Some? && selected.value.itemId.value in items
    then Some(items[selected.value.itemId.value])
    else None
  }

  /** `onDrag({ ...items[id], position: { left, top } })`. */
  function Drag(onDrag: bool, selected: Option<Item>, items: map<int, Item>, e: DragEvent): (r: Option<Item>)
    ensures r.Some? <==> Target(onDrag, selected, items).Some?
    ensures r.Some? ==> var live := Target(onDrag, selected, items).value;
                        r.value.position == Position(e.left, e.top) && r.value.(position := live.position) == live
  {
    match Target(onDrag, selected, items)
    case None => None
    case Some(live) => Some(live.(position := Position(e.left, e.top)))
  }

  /** The position after a resize: an axis whose handle direction is -1 moves
      back by that axis's delta; any other direction leaves it. */
  function ResizedPosition(p: Position, e: ResizeEvent): (r: Position)
    ensures r.left == (if e.direction.0 == -1 then p.left - e.delta.0 else p.left)
    ensures r.top == (if e.direction.1 == -1 then p.top - e.delta.1 else p.top)
  {
    var left := if e.direction.0 == -1 then p.left - e.delta.0 else p.left;
    var top := if e.direction.1 == -1 then p.top - e.delta.1 else p.top;
    Position(left, top)
  }

  /** `onResize({ ...items[id], position: { left, top }, size: { height, width } })`. */
  function Resize(onResize: bool, selected: Option<Item>, items: map<int, Item>, e: ResizeEvent): (r: Option<Item>)
    ensures r.Some? <==> Target(onResize, selected, items).Some?
    ensures r.Some? ==> var live := Target(onResize, selected, items).value;
                        && r.value.position == ResizedPosition(live.position, e)
                        && r.value == WithSize(live.(position := r.value.position), Size(e.width, e.height))
  {
    match Target(onResize, selected, items)
    case None => None
    case Some(live) => Some(WithSize(live.(position := ResizedPosition(live.position, e)), Size(e.width, e.height)))
  }

  /** `onRotate({ ...items[id], rotate })`. */
  function Rotate(onRotate: bool, selected: Option<Item>, items: map<int, Item>, e: RotateEvent): (r: Option<Item>)
    ensures r.Some? <==> Target(onRotate, selected, items).Some?
    ensures r.Some? ==> var live := Target(onRotate, selected, items).value;
                        r.value.rotate == e.rotate && r.value.(rotate := live.rotate) == live
  {
    match Target(onRotate, selected, items)
    case None => None
    case Some(live) => Some(live.(rotate := e.rotate))
  }

  /** The handlers read the live collection, not the selection snapshot: a
      selection whose snapshot is stale still yields the live entry, changed
      only in the gesture's field. */
  lemma AdaptersReadLiveItem(selected: Item, live: Item, id: int, items: map<int, Item>,
                             d: DragEvent, z: ResizeEvent, t: RotateEvent)
    requires selected.itemId == Some(id) && id in items && items[id] == live
    ensures Drag(true, Some(selected), items, d) == Some(live.(position := Position(d.left, d.top)))
    ensures Rotate(true, Some(selected), items, t) == Some(live.(rotate := t.rotate))
    ensures Resize(true, Some(selected), items, z).value.itemId == live.itemId
    ensures TypeOf(Resize(true, Some(selected), items, z).value) == TypeOf(live)
  {
  }

  /** A box resized from its left or top handle keeps its opposite edge where
      it was, when the event's delta is the change of size on that axis. */
  lemma ResizeKeepsOppositeEdge(selected: Item, items: map<int, Item>, e: ResizeEvent)
    requires selected.itemId.Some? && selected.itemId.value in items
    requires IsBoxed(TypeOf(items[selected.itemId.value]))
    ensures var live := items[selected.itemId.value];
            var r := Resize(true, Some(selected), items, e).value;
            && (e.direction.0 == -1 && e.delta.0 == e.width - live.size.width ==>
                  r.position.left + r.size.width == live.position.left + live.size.width)
            && (e.direction.1 == -1 && e.delta.1 == e.height - live.size.height ==>
                  r.position.top + r.size.height == live.position.top + live.size.height)
            && (e.direction.0 != -1 ==> r.position.left == live.position.left)
            && (e.direction.1 != -1 ==> r.position.top == live.position.top)
  {
  }

  /** A box at (10, 10) resized from its top-left handle by (5, 5) moves to (5, 5). */
  lemma ResizeExample(selected: Item, items: map<int, Item>)
    requires selected.itemId.Some? && selected.itemId.value in items
    requires items[selected.itemId.value].position == Position(10.0, 10.0)
    ensures Resize(true, Some(selected), items, ResizeEvent(50.0, 50.0, (-1, -1), (5.0, 5.0))).value.position
         == Position(5.0, 5.0)
  {
  }

  /** The gesture handles the library is asked to show for the selection. */
  datatype Controls = Controls(draggable: bool, resizable: bool, rotatable: bool)

  /** No handles without a selection; dragging and resizing are both offered
      exactly when the item may be resized, rotating when it may be rotated. */
  function Moveable(selected: Option<Item>): (r: Option<Controls>)
    ensures r.None? <==> selected.None?
    ensures r.Some? ==> r.value.draggable == r.value.resizable == selected.value.ables.resize
    ensures r.Some? ==> r.value.rotatable == selected.value.ables.rotate
  {
    match selected
    case None => None
    case Some(item) => Some(Controls(item.ables.resize, item.ables.resize, item.ables.rotate))
  }

  /** The handles each newly placed item gets: shapes, images and lines get
      all three; text and brush strokes can only be rotated, so a brush stroke
      cannot be dragged although its `move` flag is set. */
  lemma CreatedItemControls(t: ItemType, position: Position, color: string, outlineColor: string,
                            font: string, info: Option<ImageInfo>)
    requires t != Image || info.Some?
    ensures var item := Create(t, position, color, outlineColor, font, info).value;
            var full := t != Text && t != Brush;
            Moveable(Some(item)) == Some(Controls(full, full, true))
    ensures t == Brush ==> Create(t, position, color, outlineColor, font, info).value.ables.move
  {
  }

  /** `items.join(", ")`. */
  function Join(parts: seq<string>): (r: string)
    ensures |parts| == 0 ==> r == ""
    ensures |parts| == 1 ==> r == parts[0]
  {
    if |parts| == 0 then ""
    else if |parts| == 1 then parts[0]
    else Join(parts[..|parts| - 1]) + ", " + parts[|parts| - 1]
  }

  /** Joining two non-empty runs puts exactly one separator between them. */
  lemma {:induction false} JoinConcat(a: seq<string>, b: seq<string>)
    requires |a| > 0 && |b| > 0
    ensures Join(a + b) == Join(a) + ", " + Join(b)
    decreases |b|
  {
    if |b| == 1 {
      assert (a + b)[..|a + b| - 1] == a;
    } else {
      var b' := b[..|b| - 1];
      JoinConcat(a, b');
      assert (a + b)[..|a + b| - 1] == a + b';
      assert (a + b)[|a + b| - 1] == b[|b| - 1];
    }
  }

  /** One `"left top"` pair per vertex, in order. Number-to-text conversion
      is JavaScript's and is left as the parameter `show`. */
  function Vertices(area: seq<Position>, show: real -> string): (r: seq<string>)
    ensures |r| == |area|
    ensures forall i :: 0 <= i < |area| ==> r[i] == show(area[i].left) + " " + show(area[i].top)
  {
    seq(|area|, i requires 0 <= i < |area| => show(area[i].left) + " " + show(area[i].top))
  }

  /** The CSS clip path of the drawing area. */
  function ClipPath(area: seq<Position>, show: real -> string): (r: string)
    ensures |r| >= |"polygon()"|
    ensures r[..|"polygon("|] == "polygon(" && r[|r| - 1] == ')'
    ensures r[|"polygon("|..|r| - 1] == Join(Vertices(area, show))
  {
    "polygon(" + Join(Vertices(area, show)) + ")"
  }

  /** Adding a vertex at the end of the area adds one `", left top"` to the
      path just before its closing parenthesis. */
  lemma ClipPathAppend(area: seq<Position>, v: Position, show: real -> string)
    requires |area| > 0
    ensures ClipPath(area + [v], show)
         == "polygon(" + Join(Vertices(area, show)) + ", " + show(v.left) + " " + show(v.top) + ")"
  {
    assert Vertices(area + [v], show) == Vertices(area, show) + Vertices([v], show);
    JoinConcat(Vertices(area, show), Vertices([v], show));
  }
}
