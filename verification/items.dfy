/** The designer's item data model: a tagged union with one constructor per
    item type, as built by the object literals of the mouse-down handler. */
module Items {
  import opened Options
  import opened Geometry

  /** The `type` discriminator of an item, also the designer's tool mode. */
  datatype ItemType = Rectangle | Circle | Image | Line | Text | Brush

  /** The per-item capability flags ("ables"). */
  datatype Ables = Ables(close: bool, color: bool, move: bool, outline: bool, resize: bool, rotate: bool)

  /** What the image loader hands over: the embeddable data and the decoded size. */
  datatype ImageInfo = ImageInfo(data: string, size: Size)

  /** An item. `itemId` is `None` until the item is committed to a collection.
      A line has no `size` when it is created; a resize gesture attaches one. */
  datatype Item =
    | RectangleItem(itemId: Option<int>, ables: Ables, position: Position, rotate: real,
                    size: Size, naturalSize: Size, outlineColor: string, outlineWeight: real,
                    color: string)
    | CircleItem(itemId: Option<int>, ables: Ables, position: Position, rotate: real,
                 size: Size, naturalSize: Size, outlineColor: string, outlineWeight: real,
                 color: string)
    | ImageItem(itemId: Option<int>, ables: Ables, position: Position, rotate: real,
                size: Size, naturalSize: Size, outlineColor: string, outlineWeight: real,
                data: string)
    | LineItem(itemId: Option<int>, ables: Ables, position: Position, rotate: real,
               width: real, naturalWidth: real, outlineColor: string, outlineWeight: real,
               lineSize: Option<Size>)
    | TextItem(itemId: Option<int>, ables: Ables, position: Position, rotate: real,
               text: string, color: string, fontName: string, fontId: int, fontSize: int,
               bold: bool, italic: bool, underline: bool)
    | BrushItem(itemId: Option<int>, ables: Ables, position: Position, rotate: real,
                positions: seq<Position>, naturalPosition: Position, outlineColor: string,
                outlineWeight: real)

  function TypeOf(item: Item): ItemType
  {
    if item.RectangleItem? then Rectangle
    else if item.CircleItem? then Circle
    else if item.ImageItem? then Image
    else if item.LineItem? then Line
    else if item.TextItem? then Text
    else Brush
  }

  /** The item types that carry a fill `color`. */
  predicate HasFill(t: ItemType)
  {
    t == Circle || t == Rectangle || t == Text
  }

  /** The item types that carry an `outlineColor`. */
  predicate HasOutline(t: ItemType)
  {
    t != Text
  }

  /** The item types with a box `size` and `naturalSize`. */
  predicate IsBoxed(t: ItemType)
  {
    t == Rectangle || t == Circle || t == Image
  }

  /** All capabilities on: the `ables` literal shared by the shape tools. */
  const AllAbles := Ables(true, true, true, true, true, true)

  /** Text cannot be outlined or resized. */
  const TextAbles := AllAbles.(outline := false, resize := false)

  /** A brush stroke has no fill and cannot be resized. */
  const BrushAbles := AllAbles.(color := false, resize := false)

  /** The initial box of rectangles, circles and images. */
  const InitialSize := Size(4.0, 4.0)

  /** The initial length of a line. */
  const InitialWidth := 4.0

  const PlaceholderText := "Click to add a text"

  /** The item the armed tool `t` places at `position`, before an id is
      assigned. `color`, `outlineColor` and `font` are the remembered
      defaults. An image tool with no pending image information fails (the
      source dereferences the missing information and throws). */
  function Create(t: ItemType, position: Position, color: string, outlineColor: string,
                  font: string, info: Option<ImageInfo>): (r: Option<Item>)
    ensures r.None? <==> t == Image && info.None?
    ensures r.Some? ==> TypeOf(r.value) == t
    ensures r.Some? ==> r.value.itemId.None? && r.value.position == position && r.value.rotate == 0.0
    ensures r.Some? && IsBoxed(t) ==> r.value.size == InitialSize
    ensures r.Some? && (t == Circle || t == Rectangle) ==> r.value.naturalSize == InitialSize
    ensures r.Some? && t == Image ==> r.value.naturalSize == info.value.size && r.value.data == info.value.data
    ensures r.Some? && t == Line ==> r.value.width == r.value.naturalWidth == InitialWidth && r.value.lineSize.None?
    ensures r.Some? && HasFill(t) ==> r.value.color == color
    ensures r.Some? && t == Text ==> r.value.fontName == font && r.value.text == PlaceholderText
    ensures r.Some? && t == Text ==> r.value.fontId == 1 && r.value.fontSize == 16
    ensures r.Some? && t == Text ==> !r.value.bold && !r.value.italic && !r.value.underline
    ensures r.Some? && t != Text ==> r.value.outlineWeight == 1.0
    ensures r.Some? && t == Brush ==> r.value.positions == [position] && r.value.naturalPosition == position
    ensures r.Some? && HasOutline(t) ==> r.value.outlineColor == (if t == Brush then color else outlineColor)
    ensures r.Some? ==> r.value.ables == (if t == Text then TextAbles else if t == Brush then BrushAbles else AllAbles)
  {
    match t
    case Circle =>
      Some(CircleItem(None, AllAbles, position, 0.0, InitialSize, InitialSize, outlineColor, 1.0, color))
    case Rectangle =>
      Some(RectangleItem(None, AllAbles, position, 0.0, InitialSize, InitialSize, outlineColor, 1.0, color))
    case Image =>
      if info.None? then None
      else Some(ImageItem(None, AllAbles, position, 0.0, InitialSize, info.value.size, outlineColor, 1.0,
                          info.value.data))
    case Line =>
      Some(LineItem(None, AllAbles, position, 0.0, InitialWidth, InitialWidth, outlineColor, 1.0, None))
    case Text =>
      Some(TextItem(None, TextAbles, position, 0.0, PlaceholderText, color, font, 1, 16,
                    false, false, false))
    case Brush =>
      Some(BrushItem(None, BrushAbles, position, 0.0, [position], position, color, 1.0))
  }

  /** `{ ...item, color }` for the types that have a fill; others are returned as they are. */
  function WithFill(item: Item, color: string): (r: Item)
    ensures TypeOf(r) == TypeOf(item) && r.itemId == item.itemId
    ensures HasFill(TypeOf(item)) ==> r == item.(color := color)
    ensures !HasFill(TypeOf(item)) ==> r == item
  {
    if item.RectangleItem? || item.CircleItem? || item.TextItem? then item.(color := color) else item
  }

  /** `{ ...item, outlineColor }` for the types that have an outline. */
  function WithOutline(item: Item, color: string): (r: Item)
    ensures TypeOf(r) == TypeOf(item) && r.itemId == item.itemId
    ensures HasOutline(TypeOf(item)) ==> r == item.(outlineColor := color)
    ensures !HasOutline(TypeOf(item)) ==> r == item
  {
    if item.TextItem? then item else item.(outlineColor := color)
  }

  /** `{ ...item, fontName }` for text; other types are returned as they are. */
  function WithFont(item: Item, font: string): (r: Item)
    ensures TypeOf(r) == TypeOf(item) && r.itemId == item.itemId
    ensures item.TextItem? ==> r == item.(fontName := font)
    ensures !item.TextItem? ==> r == item
  {
    if item.TextItem? then item.(fontName := font) else item
  }

  /** `{ ...item, size }`: boxed items replace their size and a line gains one.
      On text and brush strokes the spread would attach a `size` that nothing
      reads; the model drops it and returns them as they are. */
  function WithSize(item: Item, size: Size): (r: Item)
    ensures TypeOf(r) == TypeOf(item) && r.itemId == item.itemId && r.position == item.position
    ensures IsBoxed(TypeOf(item)) ==> r == item.(size := size)
    ensures item.LineItem? ==> r == item.(lineSize := Some(size))
    ensures !IsBoxed(TypeOf(item)) && !item.LineItem? ==> r == item
  {
    if item.RectangleItem? || item.CircleItem? || item.ImageItem? then item.(size := size)
    else if item.LineItem? then item.(lineSize := Some(size))
    else item
  }
}
