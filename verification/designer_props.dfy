/** What the designer's handlers promise, one handler at a time. */
module DesignerProps {
  import opened Options
  import opened Geometry
  import opened Items
  import opened Designer
  import Sampling

  /** Ownership is fixed by the constructor: a designer given a host
      collection works on its own collection, which starts empty, and one
      given none has no collection to work on. */
  lemma OwnedAfterInit(props: Props)
    ensures Owned(Init(props), props) == if props.hostItems.Some? then Some(map[]) else None
  {
  }

  /** Without a collection of either kind the source throws on a change or a
      removal; the model records nothing, so such a designer can neither
      change nor remove an item. */
  lemma NoCollectionIgnoresChangeAndRemove(s: State, props: Props, item: Item)
    requires !s.useInternalItems && props.hostItems.None? && item.itemId.Some?
    ensures ChangeItem(s, props, item) == Outcome(s, None)
    ensures RemoveItem(s, props, item) == Outcome(s, None)
  {
  }

  /** Arming is not a toggle: selecting the armed tool again leaves it armed,
      and the next mouse-down still places an item. */
  lemma ReselectKeepsArmed(s: State, props: Props, t: ItemType, position: Position)
    requires t != Image
    ensures SelectTool(SelectTool(s, t), t).mode == Some(t)
    ensures MouseDown(SelectTool(SelectTool(s, t), t), props, position).state.lastItemId == s.lastItemId + 1
  {
    var armed := SelectTool(SelectTool(s, t), t);
    var item := Create(t, position, armed.color, armed.outlineColor, armed.font, armed.lastImageInfo).value;
    assert MouseDown(armed, props, position).state.lastItemId == AddItem(armed, props, item).state.lastItemId;
  }

  /** With a tool armed, a mouse-down adds exactly one item, of the armed type,
      at the pointer, under the next id; it leaves every other entry of the
      owned collection as it was, disarms, forgets the pending image, and puts
      the new item in the drawing state unless it is text. */
  lemma MouseDownAddsOne(s: State, props: Props, position: Position)
    requires s.mode.Some? && (s.mode.value == Image ==> s.lastImageInfo.Some?)
    ensures var r := MouseDown(s, props, position);
            var base := Owned(s, props).GetOr(map[]);
            var id := s.lastItemId + 1;
            && r.state.lastItemId == id
            && r.state.items.Keys == base.Keys + {id}
            && (id !in base ==> |r.state.items| == |base| + 1)
            && (forall k :: k in base && k != id ==> r.state.items[k] == base[k])
            && TypeOf(r.state.items[id]) == s.mode.value
            && r.state.items[id].itemId == Some(id)
            && r.state.items[id].position == position
            && r.state.mode.None? && r.state.lastImageInfo.None?
            && r.state.updatingItem == (if s.mode.value == Text then None else Some(r.state.items[id]))
            && r.state.selectedItem == s.selectedItem && r.state.useInternalItems == s.useInternalItems
            && r.state.color == s.color && r.state.outlineColor == s.outlineColor && r.state.font == s.font
            && r.emitted == (if props.hasOnChangeItems then Some(r.state.items) else None)
  {
    var t := s.mode.value;
    var created := Create(t, position, s.color, s.outlineColor, s.font, s.lastImageInfo);
    var item := created.value;
    var added := AddItem(s, props, item);
    var base := Owned(s, props).GetOr(map[]);
    var id := s.lastItemId + 1;
    var r := MouseDown(s, props, position);
    assert r.state.items == added.state.items && r.emitted == added.emitted;
    assert TypeOf(added.state.items[id]) == TypeOf(item);
    if id !in base {
      assert added.state.items.Keys == base.Keys + {id};
      assert |added.state.items.Keys| == |base.Keys| + 1;
    }
  }

  /** The id a mouse-down assigns is not yet in use when every id in use is at
      most the last one assigned. */
  lemma MouseDownIdIsFresh(s: State, props: Props, position: Position)
    requires forall k :: k in Owned(s, props).GetOr(map[]) ==> k <= s.lastItemId
    requires s.mode.Some? && (s.mode.value == Image ==> s.lastImageInfo.Some?)
    ensures s.lastItemId + 1 !in Owned(s, props).GetOr(map[])
    ensures |MouseDown(s, props, position).state.items| == |Owned(s, props).GetOr(map[])| + 1
  {
    MouseDownAddsOne(s, props, position);
  }

  /** While a rectangle, circle or image is being drawn, a mouse-move sets its
      size and natural size to the signed offset of the pointer from its
      corner, without clamping, and keeps its corner and type. */
  lemma MouseMoveResizesBox(s: State, trig: Trig, pointer: Position)
    requires s.updatingItem.Some? && IsBoxed(TypeOf(s.updatingItem.value))
    requires s.updatingItem.value.itemId.Some?
    ensures var u := s.updatingItem.value;
            var id := u.itemId.value;
            var r := MouseMove(s, trig, pointer);
            var adj := Size(pointer.left - u.position.left, pointer.top - u.position.top);
            && r.items.Keys == s.items.Keys + {id}
            && (forall k :: k in s.items && k != id ==> r.items[k] == s.items[k])
            && r.items[id].size == adj && r.items[id].naturalSize == adj
            && r.items[id].position == u.position && TypeOf(r.items[id]) == TypeOf(u)
            && r.items[id].(size := u.size, naturalSize := u.naturalSize) == u
  {
  }

  /** While a line is being drawn, a mouse-move sets its length and natural
      length to the pointer's distance and its angle to the pointer's angle. */
  lemma MouseMoveStretchesLine(s: State, trig: Trig, pointer: Position)
    requires s.updatingItem.Some? && s.updatingItem.value.LineItem? && s.updatingItem.value.itemId.Some?
    ensures var u := s.updatingItem.value;
            var id := u.itemId.value;
            var r := MouseMove(s, trig, pointer);
            var length := trig.hypot(u.position.left - pointer.left, u.position.top - pointer.top);
            && r.items.Keys == s.items.Keys + {id}
            && (forall k :: k in s.items && k != id ==> r.items[k] == s.items[k])
            && r.items[id].width == length && r.items[id].naturalWidth == length
            && r.items[id].rotate == trig.atan2Degrees(pointer.top - u.position.top, pointer.left - u.position.left)
            && r.items[id].(width := u.width, naturalWidth := u.naturalWidth, rotate := u.rotate) == u
  {
  }

  /** While a brush stroke is being drawn, a mouse-move keeps the old samples
      as a prefix, appends the samples toward the pointer, and moves the
      stroke's corner to the componentwise minimum of its old corner and the
      pointer, so the corner never moves right or down. */
  lemma MouseMoveExtendsStroke(s: State, trig: Trig, pointer: Position)
    requires s.updatingItem.Some? && s.updatingItem.value.BrushItem? && s.updatingItem.value.itemId.Some?
    requires var id := s.updatingItem.value.itemId.value;
             id in s.items && s.items[id].BrushItem? && |s.items[id].positions| > 0
    ensures var id := s.updatingItem.value.itemId.value;
            var live := s.items[id];
            var r := MouseMove(s, trig, pointer);
            && r.items.Keys == s.items.Keys
            && (forall k :: k in s.items && k != id ==> r.items[k] == s.items[k])
            && r.items[id].BrushItem?
            && live.positions <= r.items[id].positions
            && r.items[id].positions[|live.positions|..]
               == Sampling.Samples(live.positions[|live.positions| - 1], pointer)
            && r.items[id].position == r.items[id].naturalPosition
            && AboveLeft(r.items[id].position, live.position) && AboveLeft(r.items[id].position, pointer)
            && (r.items[id].position.left == live.position.left || r.items[id].position.left == pointer.left)
            && (r.items[id].position.top == live.position.top || r.items[id].position.top == pointer.top)
  {
  }

  /** A mouse-move with the pointer where the stroke's last sample already
      is adds no sample. */
  lemma MouseMoveInPlaceAddsNothing(s: State, trig: Trig)
    requires s.updatingItem.Some? && s.updatingItem.value.BrushItem? && s.updatingItem.value.itemId.Some?
    requires var id := s.updatingItem.value.itemId.value;
             id in s.items && s.items[id].BrushItem? && |s.items[id].positions| > 0
    ensures var id := s.updatingItem.value.itemId.value;
            var ps := s.items[id].positions;
            MouseMove(s, trig, ps[|ps| - 1]).items[id].positions == ps
  {
    var id := s.updatingItem.value.itemId.value;
    var ps := s.items[id].positions;
    Sampling.VerticalSamples(ps[|ps| - 1], ps[|ps| - 1]);
    assert ps + [] == ps;
  }

  /** `handleRemoveItem` on the designer's own collection: the id is gone,
      every other entry stays, the drawing state is left, and the id counter
      is untouched, so the id is never handed out again. */
  lemma RemoveFromOwnCollection(s: State, props: Props, item: Item)
    requires s.useInternalItems && item.itemId.Some?
    ensures var r := RemoveItem(s, props, item).state;
            var id := item.itemId.value;
            && r.items.Keys == s.items.Keys - {id}
            && (forall k :: k in r.items ==> r.items[k] == s.items[k])
            && |r.items| == (if id in s.items then |s.items| - 1 else |s.items|)
            && r.updatingItem.None?
            && r.lastItemId == s.lastItemId
            && r == s.(items := r.items, updatingItem := None)
  {
    var id := item.itemId.value;
    var r := RemoveItem(s, props, item).state;
    if id in s.items {
      assert r.items.Keys == s.items.Keys - {id};
      assert |r.items.Keys| == |s.items.Keys| - 1;
    } else {
      assert r.items == s.items;
    }
  }

  /** `handleRemoveItem` on the host's collection: the host is handed its
      collection without the id, the drawing state is left, and the
      designer's own copy is not touched. */
  lemma RemoveFromHostCollection(s: State, props: Props, item: Item)
    requires !s.useInternalItems && item.itemId.Some? && props.hostItems.Some?
    ensures var r := RemoveItem(s, props, item);
            && r.state == s.(updatingItem := None)
            && (props.hasOnChangeItems ==> r.emitted == Some(props.hostItems.value - {item.itemId.value}))
            && (!props.hasOnChangeItems ==> r.emitted.None?)
  {
  }

  /** `handleChangeItem` on the designer's own collection stores the item
      under its id even when that id is absent, and changes nothing else. */
  lemma ChangeOwnCollection(s: State, props: Props, item: Item)
    requires s.useInternalItems && item.itemId.Some?
    ensures var r := ChangeItem(s, props, item);
            var id := item.itemId.value;
            && r.state.items.Keys == s.items.Keys + {id}
            && r.state.items[id] == item
            && (forall k :: k in s.items && k != id ==> r.state.items[k] == s.items[k])
            && r.state == s.(items := r.state.items)
            && r.emitted.None?
  {
  }

  /** `handleChangeItem` on the host's collection hands the host its
      collection with the item stored under its id; the designer's state is
      not touched. */
  lemma ChangeHostCollection(s: State, props: Props, item: Item)
    requires !s.useInternalItems && item.itemId.Some? && props.hostItems.Some? && props.hasOnChangeItems
    ensures var r := ChangeItem(s, props, item);
            var id := item.itemId.value;
            && r.state == s
            && r.emitted.Some?
            && r.emitted.value.Keys == props.hostItems.value.Keys + {id}
            && r.emitted.value[id] == item
            && (forall k :: k in props.hostItems.value && k != id ==> r.emitted.value[k] == props.hostItems.value[k])
  {
  }

  /** The fill setter changes the selected entry exactly when the selection is
      a circle, rectangle or text with an id that is present, and then only
      its `color`; the rest of the collection is untouched. */
  lemma FillAppliesToFilledSelection(s: State, color: string)
    ensures var r := SetFill(s, color);
            var applies := s.selectedItem.Some? && HasFill(TypeOf(s.selectedItem.value))
                           && s.selectedItem.value.itemId.Some? && s.selectedItem.value.itemId.value in s.items;
            && r.items.Keys == s.items.Keys
            && (forall k :: k in s.items && (!applies || k != s.selectedItem.value.itemId.value) ==> r.items[k] == s.items[k])
            && (applies ==> var id := s.selectedItem.value.itemId.value;
                            r.items[id] == WithFill(s.items[id], color))
  {
  }

  /** The outline setter changes the selected entry exactly when the
      selection is not text and has an id that is present, and then only its
      `outlineColor`. */
  lemma OutlineAppliesToOutlinedSelection(s: State, color: string)
    ensures var r := SetOutline(s, color);
            var applies := s.selectedItem.Some? && s.selectedItem.value.itemId.Some?
                           && TypeOf(s.selectedItem.value) != Text && s.selectedItem.value.itemId.value in s.items;
            && r.items.Keys == s.items.Keys
            && (forall k :: k in s.items && (!applies || k != s.selectedItem.value.itemId.value) ==> r.items[k] == s.items[k])
            && (applies ==> var id := s.selectedItem.value.itemId.value;
                            r.items[id] == WithOutline(s.items[id], color))
  {
  }

  /** The font setter changes the selected entry exactly when the selection
      is text with an id that is present, and then only its `fontName`. */
  lemma FontAppliesToTextSelection(s: State, font: string)
    ensures var r := SetFont(s, font);
            var applies := s.selectedItem.Some? && s.selectedItem.value.itemId.Some?
                           && s.selectedItem.value.TextItem? && s.selectedItem.value.itemId.value in s.items;
            && r.items.Keys == s.items.Keys
            && (forall k :: k in s.items && (!applies || k != s.selectedItem.value.itemId.value) ==> r.items[k] == s.items[k])
            && (applies ==> var id := s.selectedItem.value.itemId.value;
                            r.items[id] == WithFont(s.items[id], font))
  {
  }

  /** With a circle selected, the outline setter recolours both the default
      and the circle; with a text selected, only the default. */
  lemma OutlineOnCircleAndText(s: State, color: string, id: int)
    requires id in s.items && s.selectedItem == Some(s.items[id]) && s.items[id].itemId == Some(id)
    ensures s.items[id].CircleItem? ==>
              SetOutline(s, color).outlineColor == color && SetOutline(s, color).items[id].outlineColor == color
    ensures s.items[id].TextItem? ==>
              SetOutline(s, color).outlineColor == color && SetOutline(s, color).items == s.items
  {
  }

  /** Ownership as the constructor decides it: a designer given no host
      collection does not keep its own, so each placement starts again from
      an empty collection and the state then holds the new item alone. */
  lemma WithoutHostCollectionOnlyLatestKept(props: Props, s: State, position: Position)
    requires props.hostItems.None? && s.useInternalItems == Init(props).useInternalItems
    requires s.mode.Some? && (s.mode.value == Image ==> s.lastImageInfo.Some?)
    ensures MouseDown(s, props, position).state.items.Keys == {s.lastItemId + 1}
  {
    MouseDownAddsOne(s, props, position);
  }
}
