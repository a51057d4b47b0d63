/** Sequences of designer events, and the invariant every handler except
    `handleChangeItem` keeps. */
module Session {
  import opened Options
  import opened Geometry
  import opened Items
  import opened Designer
  import Sampling
  import BrushBox
  import DesignerProps

  /** One user or host event, dispatched to its handler. */
  datatype Event =
    | Arm(tool: ItemType)
    | ArmImage(info: ImageInfo)
    | Down(position: Position)
    | Move(position: Position)
    | Up
    | Select(item: Option<Item>)
    | Remove(removed: Item)
    | Change(changed: Item)
    | Fill(color: string)
    | Outline(color: string)
    | Font(font: string)

  /** A well-formed collection whose ids run up to `last`: every entry sits
      under its own id, no id is above the last one assigned, and every brush
      stroke has samples and a corner above and left of all of them. */
  predicate StoreOk(items: map<int, Item>, last: int)
  {
    forall k :: k in items ==>
      && k <= last
      && items[k].itemId == Some(k)
      && (items[k].BrushItem? ==> |items[k].positions| > 0 && BrushBox.Anchored(items[k].position, items[k].positions))
  }

  /** An item the host may store: an id no later than the last assigned, and
      a well-formed stroke if it is a brush. */
  predicate ItemOk(item: Item, last: int)
  {
    item.itemId.Some? ==>
      && item.itemId.value <= last
      && (item.BrushItem? ==> |item.positions| > 0 && BrushBox.Anchored(item.position, item.positions))
  }

  predicate Inv(s: State, props: Props)
  {
    && StoreOk(s.items, s.lastItemId)
    && (!s.useInternalItems && props.hostItems.Some? ==> StoreOk(props.hostItems.value, s.lastItemId))
    && (s.mode == Some(Image) ==> s.lastImageInfo.Some?)
    && (s.updatingItem.Some? ==> s.updatingItem.value.itemId.Some? && s.updatingItem.value.itemId.value <= s.lastItemId)
  }

  /** An `Arm` event stands for one of the tool buttons, none of which arms
      the image tool: that tool is armed by `ArmImage`, with the loaded image. */
  predicate EventOk(s: State, e: Event)
  {
    e.Arm? ==> e.tool != Image
  }

  /** A change of the designer's own collection stores an item that respects
      the invariant. `handleChangeItem` checks nothing but the presence of an
      id, so a change that fails this is accepted and breaks the invariant. */
  predicate ChangeOk(s: State, e: Event)
  {
    e.Change? && s.useInternalItems ==> ItemOk(e.changed, s.lastItemId)
  }

  function Step(s: State, props: Props, trig: Trig, e: Event): Outcome
    requires EventOk(s, e)
  {
    match e
    case Arm(t) => Outcome(SelectTool(s, t), None)
    case ArmImage(info) => Outcome(AddImage(s, info), None)
    case Down(p) => MouseDown(s, props, p)
    case Move(p) => Outcome(MouseMove(s, trig, p), None)
    case Up => Outcome(MouseUp(s), None)
    case Select(item) => Outcome(SelectItem(s, item), None)
    case Remove(item) => RemoveItem(s, props, item)
    case Change(item) => ChangeItem(s, props, item)
    case Fill(c) => Outcome(SetFill(s, c), None)
    case Outline(c) => Outcome(SetOutline(s, c), None)
    case Font(f) => Outcome(SetFont(s, f), None)
  }

  /** Every event of `es` is acceptable in the state it arrives in. */
  predicate ValidRun(s: State, props: Props, trig: Trig, es: seq<Event>)
    decreases |es|
  {
    |es| == 0 || (EventOk(s, es[0]) && ValidRun(Step(s, props, trig, es[0]).state, props, trig, es[1..]))
  }

  function Run(s: State, props: Props, trig: Trig, es: seq<Event>): State
    requires ValidRun(s, props, trig, es)
    decreases |es|
  {
    if |es| == 0 then s else Run(Step(s, props, trig, es[0]).state, props, trig, es[1..])
  }

  /** Every change in the run is `ChangeOk` in the state it arrives in. */
  predicate ChangesOk(s: State, props: Props, trig: Trig, es: seq<Event>)
    requires ValidRun(s, props, trig, es)
    decreases |es|
  {
    |es| == 0 || (ChangeOk(s, es[0]) && ChangesOk(Step(s, props, trig, es[0]).state, props, trig, es[1..]))
  }

  /** A fresh designer satisfies the invariant, whatever the host passed. */
  lemma InitOk(props: Props)
    ensures Inv(Init(props), props)
  {
  }

  /** A stroke extended by a mouse-move stays anchored at its new corner. */
  lemma BrushMoveKeepsAnchor(u: Item, live: Item, pointer: Position)
    requires u.BrushItem? && live.BrushItem? && |live.positions| > 0
    requires BrushBox.Anchored(live.position, live.positions)
    ensures var r := BrushMove(u, live, pointer);
            |r.positions| > 0 && BrushBox.Anchored(r.position, r.positions)
  {
    var r := BrushMove(u, live, pointer);
    var last := live.positions[|live.positions| - 1];
    assert last in live.positions;
    Sampling.SamplesBetween(last, pointer);
    forall p | p in r.positions
      ensures AboveLeft(r.position, p)
    {
      if p !in live.positions {
        assert p in Sampling.Samples(last, pointer);
        assert Sampling.Between(last, pointer, p);
      }
    }
  }

  lemma MoveKeepsInv(s: State, props: Props, trig: Trig, pointer: Position)
    requires Inv(s, props)
    ensures Inv(MouseMove(s, trig, pointer), props)
  {
    if s.updatingItem.Some? && s.updatingItem.value.itemId.Some? {
      var u := s.updatingItem.value;
      var id := u.itemId.value;
      if u.BrushItem? && id in s.items && s.items[id].BrushItem? && |s.items[id].positions| > 0 {
        BrushMoveKeepsAnchor(u, s.items[id], pointer);
      }
    }
  }

  /** Storing an item under the next id keeps the collection well formed. */
  lemma StoreNextKeepsStore(items: map<int, Item>, last: int, item: Item)
    requires StoreOk(items, last)
    requires item.itemId == Some(last + 1)
    requires item.BrushItem? ==> |item.positions| > 0 && BrushBox.Anchored(item.position, item.positions)
    ensures StoreOk(items[last + 1 := item], last + 1)
  {
  }

  /** The state an armed mouse-down leaves, as one record update. */
  lemma MouseDownState(s: State, props: Props, position: Position)
    requires s.mode.Some?
    requires Create(s.mode.value, position, s.color, s.outlineColor, s.font, s.lastImageInfo).Some?
    ensures var id := s.lastItemId + 1;
            var item := Create(s.mode.value, position, s.color, s.outlineColor, s.font, s.lastImageInfo).value.(itemId := Some(id));
            MouseDown(s, props, position).state
              == s.(items := Owned(s, props).GetOr(map[])[id := item], lastItemId := id, mode := None,
                    lastImageInfo := None, updatingItem := if s.mode.value == Text then None else Some(item))
  {
  }

  /** The collection the handlers work on is well formed whenever the state is. */
  lemma OwnedStoreOk(s: State, props: Props)
    requires Inv(s, props)
    ensures StoreOk(Owned(s, props).GetOr(map[]), s.lastItemId)
  {
  }

  lemma DownKeepsInv(s: State, props: Props, position: Position)
    requires Inv(s, props)
    ensures Inv(MouseDown(s, props, position).state, props)
  {
    if s.mode.Some? {
      var created := Create(s.mode.value, position, s.color, s.outlineColor, s.font, s.lastImageInfo);
      if created.Some? {
        var id := s.lastItemId + 1;
        var item := created.value.(itemId := Some(id));
        if item.BrushItem? {
          assert item.positions == [position] && item.position == position;
        }
        OwnedStoreOk(s, props);
        StoreNextKeepsStore(Owned(s, props).GetOr(map[]), s.lastItemId, item);
        MouseDownState(s, props, position);
      }
    }
  }

  lemma RestyleKeepsStore(items: map<int, Item>, last: int, id: Option<int>, restyle: Item -> Item)
    requires StoreOk(items, last)
    requires forall item: Item :: item.itemId == restyle(item).itemId && item.BrushItem? == restyle(item).BrushItem?
    requires forall item: Item :: item.BrushItem? ==> restyle(item).positions == item.positions && restyle(item).position == item.position
    ensures StoreOk(Restyle(items, id, restyle), last)
  {
    var r := Restyle(items, id, restyle);
    forall k | k in r
      ensures k <= last && r[k].itemId == Some(k)
      ensures r[k].BrushItem? ==> |r[k].positions| > 0 && BrushBox.Anchored(r[k].position, r[k].positions)
    {
      if Some(k) == id {
        assert r[k] == restyle(items[k]);
      } else {
        assert r[k] == items[k];
      }
    }
  }

  /** A change that fails `ChangeOk` lands in the designer's own collection,
      where the invariant rejects it. */
  lemma BadChangeBreaksStore(s: State, props: Props, item: Item)
    requires s.useInternalItems && !ItemOk(item, s.lastItemId)
    ensures !StoreOk(ChangeItem(s, props, item).state.items, s.lastItemId)
  {
    var id := item.itemId.value;
    var r := ChangeItem(s, props, item).state;
    assert id in r.items && r.items[id] == item;
  }

  /** A change keeps the invariant exactly when it is `ChangeOk`. */
  lemma ChangeKeepsInv(s: State, props: Props, item: Item)
    requires Inv(s, props)
    ensures Inv(ChangeItem(s, props, item).state, props) <==> ChangeOk(s, Change(item))
  {
    if !ChangeOk(s, Change(item)) {
      BadChangeBreaksStore(s, props, item);
    } else if item.itemId.Some? && s.useInternalItems {
      var r := ChangeItem(s, props, item).state;
      assert r == s.(items := s.items[item.itemId.value := item]);
    }
  }

  /** A handler that touches nothing the invariant reads except the
      designer's own collection keeps it when that collection stays well formed. */
  lemma CollectionOnlyKeepsInv(s: State, props: Props, r: State)
    requires Inv(s, props) && StoreOk(r.items, r.lastItemId)
    requires r.lastItemId == s.lastItemId && r.useInternalItems == s.useInternalItems
    requires r.mode == s.mode && r.lastImageInfo == s.lastImageInfo && r.updatingItem == s.updatingItem
    ensures Inv(r, props)
  {
  }

  /** The fill setter keeps the invariant: it recolours at most one entry. */
  lemma FillKeepsInv(s: State, props: Props, color: string)
    requires Inv(s, props)
    ensures Inv(SetFill(s, color), props)
  {
    RestyleKeepsStore(s.items, s.lastItemId, SelectedId(s, HasFill), item => WithFill(item, color));
    CollectionOnlyKeepsInv(s, props, SetFill(s, color));
  }

  /** The outline setter keeps the invariant: it recolours at most one entry. */
  lemma OutlineKeepsInv(s: State, props: Props, color: string)
    requires Inv(s, props)
    ensures Inv(SetOutline(s, color), props)
  {
    RestyleKeepsStore(s.items, s.lastItemId, SelectedId(s, HasOutline), item => WithOutline(item, color));
    CollectionOnlyKeepsInv(s, props, SetOutline(s, color));
  }

  /** The font setter keeps the invariant: it changes the font of at most one entry. */
  lemma FontKeepsInv(s: State, props: Props, font: string)
    requires Inv(s, props)
    ensures Inv(SetFont(s, font), props)
  {
    RestyleKeepsStore(s.items, s.lastItemId, SelectedId(s, t => t == Text), item => WithFont(item, font));
    CollectionOnlyKeepsInv(s, props, SetFont(s, font));
  }

  /** Every handler keeps the invariant, except a change of the designer's own
      collection that stores an item under an id the counter has not reached,
      or a stroke that is empty or not anchored: the invariant survives a step
      exactly when the step is `ChangeOk`. */
  lemma StepKeepsInv(s: State, props: Props, trig: Trig, e: Event)
    requires Inv(s, props) && EventOk(s, e)
    ensures Inv(Step(s, props, trig, e).state, props) <==> ChangeOk(s, e)
  {
    match e
    case Down(p) => DownKeepsInv(s, props, p);
    case Move(p) => MoveKeepsInv(s, props, trig, p);
    case Fill(c) => FillKeepsInv(s, props, c);
    case Outline(c) => OutlineKeepsInv(s, props, c);
    case Font(f) => FontKeepsInv(s, props, f);
    case Change(item) => ChangeKeepsInv(s, props, item);
    case _ =>
  }

  /** The id counter moves only by placing an item, and then by exactly one. */
  lemma StepCounter(s: State, props: Props, trig: Trig, e: Event)
    requires EventOk(s, e)
    ensures var r := Step(s, props, trig, e).state;
            r.lastItemId == s.lastItemId || (e.Down? && r.lastItemId == s.lastItemId + 1)
  {
    if e.Down? && s.mode.Some? && (s.mode.value == Image ==> s.lastImageInfo.Some?) {
      DesignerProps.MouseDownAddsOne(s, props, e.position);
    }
  }

  /** In a state that keeps the invariant, the id a mouse-down reaches was
      not in use in the collection the item joined, nor in the designer's
      own, and it is in use afterwards. */
  lemma StepIdCounter(s: State, props: Props, trig: Trig, e: Event)
    requires Inv(s, props) && EventOk(s, e)
    ensures var r := Step(s, props, trig, e).state;
            && (r.lastItemId == s.lastItemId || r.lastItemId == s.lastItemId + 1)
            && (r.lastItemId == s.lastItemId + 1 ==>
                  && e.Down?
                  && r.lastItemId !in Owned(s, props).GetOr(map[])
                  && r.lastItemId !in s.items
                  && r.lastItemId in r.items)
  {
    StepCounter(s, props, trig, e);
    if e.Down? && s.mode.Some? && (s.mode.value == Image ==> s.lastImageInfo.Some?) {
      DesignerProps.MouseDownAddsOne(s, props, e.position);
    }
  }

  /** Without the invariant an id can be handed out twice: a change that
      stores an item under the next id, followed by a mouse-down, replaces
      that entry with the placed item. */
  lemma ChangeAheadIsOverwritten(s: State, props: Props, trig: Trig, item: Item, position: Position)
    requires s.useInternalItems && s.mode.Some? && s.mode.value != Image
    requires item.itemId == Some(s.lastItemId + 1)
    ensures !ChangeOk(s, Change(item))
    ensures var changed := Step(s, props, trig, Change(item)).state;
            var placed := Step(changed, props, trig, Down(position)).state;
            var id := s.lastItemId + 1;
            && id in changed.items && changed.items[id] == item
            && placed.lastItemId == id
            && placed.items.Keys == changed.items.Keys
            && TypeOf(placed.items[id]) == s.mode.value && placed.items[id].position == position
  {
    var changed := Step(s, props, trig, Change(item)).state;
    assert changed == s.(items := s.items[s.lastItemId + 1 := item]);
    DesignerProps.MouseDownAddsOne(changed, props, position);
  }

  /** Any sequence of events never lowers the id counter, and one whose
      changes are all `ChangeOk` keeps the invariant. */
  lemma {:induction false} RunKeepsInv(s: State, props: Props, trig: Trig, es: seq<Event>)
    requires ValidRun(s, props, trig, es)
    ensures Inv(s, props) && ChangesOk(s, props, trig, es) ==> Inv(Run(s, props, trig, es), props)
    ensures Run(s, props, trig, es).lastItemId >= s.lastItemId
    decreases |es|
  {
    if |es| > 0 {
      if Inv(s, props) {
        StepKeepsInv(s, props, trig, es[0]);
      }
      StepCounter(s, props, trig, es[0]);
      RunKeepsInv(Step(s, props, trig, es[0]).state, props, trig, es[1..]);
    }
  }

  /** In any state that keeps the invariant, the dots the brush component
      would draw for each stroke in the collection lie inside its box. */
  lemma StrokesRenderInsideBox(s: State, props: Props, id: int)
    requires Inv(s, props)
    requires id in s.items && s.items[id].BrushItem?
    ensures var stroke := s.items[id];
            && |stroke.positions| > 0
            && var box := BrushBox.BoxSize(stroke.position, stroke.positions);
               forall d :: d in BrushBox.Offsets(stroke.position, stroke.positions) ==>
                 0.0 <= d.left <= box.width && 0.0 <= d.top <= box.height
  {
    var stroke := s.items[id];
    BrushBox.DotsInsideBox(stroke.position, stroke.positions);
  }

  /** A change that stores a stroke with a sample above or left of its
      position is accepted, and the brush component would draw that sample's
      dot outside the box. */
  lemma UnanchoredChangeDrawsOutside(s: State, props: Props, trig: Trig, item: Item, p: Position)
    requires s.useInternalItems && item.BrushItem? && item.itemId.Some?
    requires p in item.positions && !AboveLeft(item.position, p)
    ensures var stroke := Step(s, props, trig, Change(item)).state.items[item.itemId.value];
            exists d :: d in BrushBox.Offsets(stroke.position, stroke.positions) && (d.left < 0.0 || d.top < 0.0)
  {
    var stroke := Step(s, props, trig, Change(item)).state.items[item.itemId.value];
    assert stroke == item;
    var dots := BrushBox.Offsets(stroke.position, stroke.positions);
    var i :| 0 <= i < |item.positions| && item.positions[i] == p;
    assert dots[i] in dots;
  }

  /** After any sequence of events from a fresh designer whose changes are all
      `ChangeOk`, the dots the brush component would draw for every stroke in
      the collection lie inside its box. */
  lemma SessionStrokesRenderInsideBox(props: Props, trig: Trig, es: seq<Event>, id: int)
    requires ValidRun(Init(props), props, trig, es)
    requires var s := Run(Init(props), props, trig, es); id in s.items && s.items[id].BrushItem?
    ensures ChangesOk(Init(props), props, trig, es) ==>
              var stroke := Run(Init(props), props, trig, es).items[id];
              && |stroke.positions| > 0
              && var box := BrushBox.BoxSize(stroke.position, stroke.positions);
                 forall d :: d in BrushBox.Offsets(stroke.position, stroke.positions) ==>
                   0.0 <= d.left <= box.width && 0.0 <= d.top <= box.height
  {
    InitOk(props);
    RunKeepsInv(Init(props), props, trig, es);
    if ChangesOk(Init(props), props, trig, es) {
      StrokesRenderInsideBox(Run(Init(props), props, trig, es), props, id);
    }
  }
}
