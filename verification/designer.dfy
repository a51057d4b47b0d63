/** The designer's state and its event handlers (Designer.tsx). Every handler
    is a pure function from the state before the event to the state after it;
    consecutive `setState` calls inside one handler are applied in order. */
module Designer {
  import opened Options
  import opened Geometry
  import opened Items
  import Sampling

  /** What the host passes in. `hostItems` is the host's collection (absent
      when the host gave none), `hasOnChangeItems` whether it listens for
      changes; a missing `paperSize` falls back to the default. */
  datatype Props = Props(hostItems: Option<map<int, Item>>, hasOnChangeItems: bool,
                         drawingArea: Option<seq<Position>>, paperSize: Option<Size>)

  /** The paper size used when the host gives none. */
  const DefaultPaperSize := Size(600.0, 300.0)

  const InitialFill := "#ffffff"
  const InitialOutline := "#ff0000"
  const InitialFont := "Sans Serif"

  datatype State = State(
    area: seq<Position>,
    items: map<int, Item>,
    lastItemId: int,
    useInternalItems: bool,
    color: string,
    outlineColor: string,
    font: string,
    mode: Option<ItemType>,
    lastImageInfo: Option<ImageInfo>,
    updatingItem: Option<Item>,
    selectedItem: Option<Item>)

  /** A handler's result: the next state and the collection handed to the
      host's `onChangeItems`, if it was called. */
  datatype Outcome = Outcome(state: State, emitted: Option<map<int, Item>>)

  /** Euclidean length and `atan2` in degrees, both of a vector `(dx, dy)`.
      Floating-point square roots and trigonometry are left uninterpreted. */
  datatype Trig = Trig(hypot: (real, real) -> real, atan2Degrees: (real, real) -> real)

  /** The drawing area when the host gives none: the paper's four corners,
      clockwise from the top-left. */
  function DefaultArea(paper: Size): (r: seq<Position>)
    ensures |r| == 4 && r[0] == Position(0.0, 0.0) && r[2] == Position(paper.width, paper.height)
    ensures forall i :: 0 <= i < 4 ==> r[i].left in {0.0, paper.width} && r[i].top in {0.0, paper.height}
    ensures r[0].top == r[1].top && r[1].left == r[2].left && r[2].top == r[3].top && r[3].left == r[0].left
  {
    [Position(0.0, 0.0), Position(paper.width, 0.0), Position(paper.width, paper.height), Position(0.0, paper.height)]
  }

  /** The constructor. Ownership is decided once: the designer keeps its own
      collection exactly when the host supplied one (`!!props.items`). */
  function Init(props: Props): (s: State)
    ensures s.items == map[] && s.lastItemId == -1
    ensures s.useInternalItems <==> props.hostItems.Some?
    ensures props.drawingArea.Some? ==> s.area == props.drawingArea.value
    ensures props.drawingArea.None? && props.paperSize.None? ==> s.area == DefaultArea(DefaultPaperSize)
    ensures props.drawingArea.None? && props.paperSize.Some? ==> s.area == DefaultArea(props.paperSize.value)
    ensures s.color == InitialFill && s.outlineColor == InitialOutline && s.font == InitialFont
    ensures s.mode.None? && s.lastImageInfo.None? && s.updatingItem.None? && s.selectedItem.None?
  {
    var paper := props.paperSize.GetOr(DefaultPaperSize);
    var area := if props.drawingArea.Some? then props.drawingArea.value else DefaultArea(paper);
    State(area, map[], -1, props.hostItems.Some?, InitialFill, InitialOutline, InitialFont,
          None, None, None, None)
  }

  /** The collection the add, change and remove handlers work on: the
      designer's own when it keeps one, otherwise the host's (absent when the
      host gave none). */
  function Owned(s: State, props: Props): (r: Option<map<int, Item>>)
    ensures r.None? <==> !s.useInternalItems && props.hostItems.None?
    ensures s.useInternalItems ==> r == Some(s.items)
    ensures !s.useInternalItems ==> r == props.hostItems
  {
    if s.useInternalItems then Some(s.items) else props.hostItems
  }

  /** `addItem`: the item is committed under the next id, into a copy of the
      owned collection (an empty one if the host gave none), and becomes the
      item being drawn. */
  function AddItem(s: State, props: Props, item: Item): (r: Outcome)
    ensures var base := Owned(s, props).GetOr(map[]);
            var id := s.lastItemId + 1;
            && r.state.lastItemId == id
            && r.state.items.Keys == base.Keys + {id}
            && r.state.items[id].itemId == Some(id)
            && r.state.items[id].(itemId := item.itemId) == item
            && (forall k :: k in base && k != id ==> r.state.items[k] == base[k])
            && r.state.updatingItem == Some(r.state.items[id])
            && r.emitted == (if props.hasOnChangeItems then Some(r.state.items) else None)
            && r.state == s.(items := r.state.items, lastItemId := id, updatingItem := r.state.updatingItem)
  {
    var base := Owned(s, props).GetOr(map[]);
    var id := s.lastItemId + 1;
    var newItem := item.(itemId := Some(id));
    var newItems := base[id := newItem];
    Outcome(s.(items := newItems, lastItemId := id, updatingItem := Some(newItem)),
            if props.hasOnChangeItems then Some(newItems) else None)
  }

  /** `handleAddCircle`, `handleAddRectangle`, `handleAddLine`, `handleAddText`,
      `handleAddBrush`: arm the tool, whatever was armed before. */
  function SelectTool(s: State, t: ItemType): (r: State)
    requires t != Image
    ensures r.mode == Some(t)
    ensures r.(mode := s.mode) == s
  {
    s.(mode := Some(t))
  }

  /** `handleAddImage`: remember the loaded image and arm the image tool. */
  function AddImage(s: State, info: ImageInfo): (r: State)
    ensures r.mode == Some(Image) && r.lastImageInfo == Some(info)
    ensures r.(mode := s.mode, lastImageInfo := s.lastImageInfo) == s
  {
    s.(lastImageInfo := Some(info), mode := Some(Image))
  }

  /** `handleMouseDown`: with a tool armed, place one item of that type at the
      pointer and disarm. Text is not left in the drawing state. An armed image
      tool without image information throws in the source: nothing happens. */
  function MouseDown(s: State, props: Props, position: Position): (r: Outcome)
    ensures s.mode.None? ==> r == Outcome(s, None)
    ensures s.mode == Some(Image) && s.lastImageInfo.None? ==> r == Outcome(s, None)
  {
    if s.mode.None? then Outcome(s, None)
    else
      var t := s.mode.value;
      match Create(t, position, s.color, s.outlineColor, s.font, s.lastImageInfo)
      case None => Outcome(s, None)
      case Some(item) =>
        var added := AddItem(s, props, item);
        var drawing := if t == Text then added.state.(updatingItem := None) else added.state;
        Outcome(drawing.(mode := None, lastImageInfo := None), added.emitted)
  }

  /** The running minimum of a brush stroke's top-left corner. */
  function MinCorner(p: Position, q: Position): (r: Position)
    ensures r.left == Min(p.left, q.left) && r.top == Min(p.top, q.top)
  {
    Position(if p.left > q.left then q.left else p.left, if p.top > q.top then q.top else p.top)
  }

  /** The brush stroke written by a mouse-move: the snapshot `u` taken when the
      stroke began, with the live entry's samples extended from their last
      point to the pointer, and its corner moved to the running minimum. */
  function BrushMove(u: Item, live: Item, pointer: Position): (r: Item)
    requires u.BrushItem? && live.BrushItem? && |live.positions| > 0
    ensures r.BrushItem? && r.itemId == u.itemId
    ensures r.positions == live.positions + Sampling.Samples(live.positions[|live.positions| - 1], pointer)
    ensures r.position == r.naturalPosition == MinCorner(live.position, pointer)
    ensures r.(positions := u.positions, position := u.position, naturalPosition := u.naturalPosition) == u
  {
    var last := live.positions[|live.positions| - 1];
    var corner := MinCorner(live.position, pointer);
    u.(naturalPosition := corner, position := corner, positions := live.positions + Sampling.Samples(last, pointer))
  }

  /** `handleMouseMove`: while an item is being drawn, recompute its geometry
      from the pointer and write it under its id. Boxes grow by the signed
      pointer offset; lines take the pointer's distance and angle; brush
      strokes append samples. Without an item being drawn nothing changes, and
      a brush stroke whose live entry is missing or empty throws in the
      source, so nothing changes either. */
  function MouseMove(s: State, trig: Trig, pointer: Position): (r: State)
    ensures s.updatingItem.None? ==> r == s
    ensures r == s.(items := r.items)
  {
    match s.updatingItem
    case None => s
    case Some(u) =>
      if u.itemId.None? then s
      else
        var id := u.itemId.value;
        if u.RectangleItem? || u.ImageItem? || u.CircleItem? then
          var adj := Size(pointer.left - u.position.left, pointer.top - u.position.top);
          s.(items := s.items[id := u.(naturalSize := adj, size := adj)])
        else if u.LineItem? then
          var dx := u.position.left - pointer.left;
          var dy := u.position.top - pointer.top;
          var length := trig.hypot(dx, dy);
          var angle := trig.atan2Degrees(pointer.top - u.position.top, pointer.left - u.position.left);
          s.(items := s.items[id := u.(naturalWidth := length, rotate := angle, width := length)])
        else if u.BrushItem? then
          if id in s.items && s.items[id].BrushItem? && |s.items[id].positions| > 0
          then s.(items := s.items[id := BrushMove(u, s.items[id], pointer)])
          else s
        else s
  }

  /** `handleMouseUp`: leave the drawing state and disarm. */
  function MouseUp(s: State): (r: State)
    ensures r.mode.None? && r.updatingItem.None?
    ensures r.(mode := s.mode, updatingItem := s.updatingItem) == s
  {
    s.(updatingItem := None, mode := None)
  }

  /** `handleSelectItem`. */
  function SelectItem(s: State, item: Option<Item>): (r: State)
    ensures r.selectedItem == item
    ensures r.(selectedItem := s.selectedItem) == s
  {
    s.(selectedItem := item)
  }

  /** `handleChangeItem`: store a copy of the item under its id, whether or
      not that id is present. The designer's own collection is updated in
      state; the host's is handed back through `onChangeItems`. An item
      without an id is ignored. Without a host collection, or without the
      callback, the source throws: nothing is recorded. */
  function ChangeItem(s: State, props: Props, item: Item): (r: Outcome)
    ensures item.itemId.None? ==> r == Outcome(s, None)
  {
    if item.itemId.None? then Outcome(s, None)
    else
      var id := item.itemId.value;
      if s.useInternalItems then Outcome(s.(items := s.items[id := item]), None)
      else if props.hostItems.Some? && props.hasOnChangeItems
      then Outcome(s, Some(props.hostItems.value[id := item]))
      else Outcome(s, None)
  }

  /** `handleRemoveItem`: delete the item's id from the owned collection and
      leave the drawing state. An item without an id is ignored; without a
      host collection the source throws before anything changes. */
  function RemoveItem(s: State, props: Props, item: Item): (r: Outcome)
    ensures item.itemId.None? ==> r == Outcome(s, None)
  {
    if item.itemId.None? then Outcome(s, None)
    else
      var id := item.itemId.value;
      if s.useInternalItems then Outcome(s.(items := s.items - {id}, updatingItem := None), None)
      else if props.hostItems.Some?
      then Outcome(s.(updatingItem := None),
                   if props.hasOnChangeItems then Some(props.hostItems.value - {id}) else None)
      else Outcome(s, None)
  }

  /** The id of the selection, when it is of a type `applies` accepts and has one. */
  function SelectedId(s: State, applies: ItemType -> bool): Option<int>
  {
    if s.selectedItem.Some? && applies(TypeOf(s.selectedItem.value)) && s.selectedItem.value.itemId.Some?
    then s.selectedItem.value.itemId
    else None
  }

  /** Rewrite the live entry under `id`, if there is one. */
  function Restyle(items: map<int, Item>, id: Option<int>, restyle: Item -> Item): (r: map<int, Item>)
    ensures r.Keys == items.Keys
    ensures forall k :: k in items && Some(k) != id ==> r[k] == items[k]
    ensures id.Some? && id.value in items ==> r[id.value] == restyle(items[id.value])
  {
    if id.Some? && id.value in items then items[id.value := restyle(items[id.value])] else items
  }

  /** `handleChangeFillColor`: remember the fill, and apply it to the selected
      circle, rectangle or text. */
  function SetFill(s: State, color: string): (r: State)
    ensures r.color == color
    ensures r == s.(items := r.items, color := color)
  {
    var id := SelectedId(s, HasFill);
    s.(items := Restyle(s.items, id, item => WithFill(item, color))).(color := color)
  }

  /** `handleChangeOutlineColor`: remember the outline colour, and apply it to
      the selection unless it is text. */
  function SetOutline(s: State, color: string): (r: State)
    ensures r.outlineColor == color
    ensures r == s.(items := r.items, outlineColor := color)
  {
    var id := SelectedId(s, HasOutline);
    s.(items := Restyle(s.items, id, item => WithOutline(item, color))).(outlineColor := color)
  }

  /** `handleChangeFont`: remember the font, and apply it to the selected text. */
  function SetFont(s: State, font: string): (r: State)
    ensures r.font == font
    ensures r == s.(items := r.items, font := font)
  {
    var id := SelectedId(s, t => t == Text);
    s.(items := Restyle(s.items, id, item => WithFont(item, font))).(font := font)
  }
}
