# Designer item store and drawing-session model

A Dafny model of the core of the React "designer" widget: the item store and
drawing-session state machine of `src/Designer.tsx`, the transform-gesture
adapters and clip path of `src/Paper/Paper.tsx`, and the brush bounding box of
`src/Paper/Brush.tsx`.

The designer keeps a map from id to item, a counter `lastItemId` that starts at
-1, the armed tool (`mode`), the item being drawn (`updatingItem`), the
selection, the remembered fill, outline colour and font, and the pending image.
Each event handler is a pure function from the state before the event to the
state after it. Consecutive `setState` calls inside one handler are applied in
order. Handlers that talk to the host return an `Outcome`: the next state, plus
the collection handed to `onChangeItems` when that callback is called.

Files and modules:

- `options.dfy` (`Options`): the optional value that stands for `undefined`.
- `geometry.dfy` (`Geometry`): positions, sizes, `Min`, `Abs`, and the "above-left of" order.
- `items.dfy` (`Items`): the item tagged union, the capability flags (`ables`), per-type creation defaults, and the field setters that spreads perform.
- `sampling.dfy` (`Sampling`): brush-stroke sampling. The source's four loops are four recursive functions.
- `brush_box.dfy` (`BrushBox`): the seedless `reduce` to the rightmost and lowest samples, the box size, and the dot offsets.
- `paper.dfy` (`Paper`): the drag, resize and rotate adapters, the gesture handles offered, and the clip path.
- `designer.dfy` (`Designer`): the state, the constructor and every handler.
- `designer_props.dfy` (`DesignerProps`): one lemma per handler property.
- `session.dfy` (`Session`): event sequences, and an invariant that every handler except `handleChangeItem` keeps. The invariant says:
  - every id is at most the counter and sits under its own key;
  - an armed image tool has its image information;
  - every brush stroke is anchored at the top-left of its samples.

  `handleChangeItem` checks nothing but the presence of an id. A change that stores an item under an id the counter has not reached, or an unanchored stroke, is accepted and breaks the invariant (`StepKeepsInv`, `ChangeAheadIsOverwritten`, `UnanchoredChangeDrawsOutside`).
  From this invariant, the dots the brush component would draw for each stroke lie inside its box.

JavaScript numbers are exact `real`s. The brush sampler's `slope * x + intercept`
is therefore exact, and IEEE rounding is not reproduced. The line tool's length
(`Math.sqrt`) and angle (`Math.atan2 * 180 / Math.PI`) are the two functions of
the `Trig` parameter. They are left uninterpreted.

The model follows the code as written, including these behaviours a reader may not expect:

- Selecting a tool always arms it; re-selecting the armed tool does not disarm it (`ReselectKeepsArmed`).
- The vertical brush branch stops before the pointer's own y. A move from (0, 0) to (0, 3) therefore yields (0, 0), (0, 1), (0, 2) and not (0, 3) (`VerticalExample`).
- The designer keeps its own collection exactly when the host supplied one (`!!props.items`). A designer given no host collection rebuilds its state from an empty map on every placement (`WithoutHostCollectionOnlyLatestKept`).
- `handleChangeItem` stores an item even under an id that is not present (`ChangeOwnCollection`).
- The gesture library's `draggable` flag follows `ables.resize`, not `ables.move`. A brush stroke (which has `move` set and `resize` clear) is therefore offered rotation only (`CreatedItemControls`).
- A brush stroke's outline colour is the remembered fill colour, not the remembered outline colour (`Items.Create`).

## Model

| member | source | states |
|---|---|---|
| Items.Create | src/Designer.tsx:249-345 | the item a mouse-down places has the armed type, no id, the pointer as position and rotation 0. Boxes are 4 by 4; an image's natural size and data come from the pending image; a line is 4 long. Text gets the placeholder, the remembered font and no outline or resize; a brush gets `[position]` as its samples and the fill colour as its outline. Every type but text has outline weight 1; text has font id 1, font size 16, and is neither bold, italic nor underlined. An armed image tool without image information yields nothing |
| Items.WithFill | src/Designer.tsx:478-486 | a circle, rectangle or text gets the new `color` and nothing else changes; other types have no fill and are returned as they are |
| Items.WithOutline | src/Designer.tsx:500-508 | every type except text gets the new `outlineColor` and nothing else changes |
| Items.WithFont | src/Designer.tsx:522-530 | text gets the new `fontName` and nothing else changes |
| Items.WithSize | src/Paper/Paper.tsx:174-178 | boxes replace `size`; a line gains a `size`; text and brush strokes are returned as they are; id, type and position are kept |
| Sampling.Rightward | src/Designer.tsx:418-421 | the ascending x loop emits something exactly when its start is at most its bound, and every point it emits lies between them on the slope line |
| Sampling.Leftward | src/Designer.tsx:424-427 | the descending x loop emits something exactly when its start is at least its bound, and every point lies between them on the slope line |
| Sampling.Downward | src/Designer.tsx:431-433 | the ascending y loop emits something exactly when its start is below its bound; every point is at the given x, from the start up to but excluding the bound |
| Sampling.Upward | src/Designer.tsx:435-437 | the descending y loop emits something exactly when its start is above its bound; every point is at the given x, from the start down to but excluding the bound |
| Sampling.Samples | src/Designer.tsx:410-439 | every sample's x lies between the last sample's and the pointer's; a horizontal move always emits; otherwise every sample is at the pointer's x, between the two ys but never at the pointer's y, and none are emitted exactly when the pointer is where the last sample is |
| Sampling.RightwardShape | src/Designer.tsx:418-422 | the ascending x loop emits one point per whole step from the start up to the bound inclusive, at abscissa start + i on the slope line |
| Sampling.LeftwardShape | src/Designer.tsx:423-428 | the descending x loop emits one point per whole step down to the bound inclusive, at abscissa start − i |
| Sampling.DownwardShape | src/Designer.tsx:430-433 | the ascending y loop emits ⌈to − y⌉ points at y + i, stopping before the bound |
| Sampling.UpwardShape | src/Designer.tsx:434-438 | the descending y loop emits ⌈y − to⌉ points at y − i, stopping before the bound |
| Sampling.SlopePointOnSegment | src/Designer.tsx:410-421 | a slanted point whose x lies between the two ends lies on the line through them and inside their box |
| Sampling.SlopeEnds | src/Designer.tsx:410-416 | the line given by `slope` and `intercept` passes through the last sample and through the pointer |
| Sampling.RightwardSamples | src/Designer.tsx:415-422 | a move to the right emits ⌊dx⌋ + 1 collinear points at last.left + i, all inside the box of the two ends |
| Sampling.LeftwardSamples | src/Designer.tsx:423-428 | a move to the left emits ⌊−dx⌋ + 1 collinear points at last.left − i, all inside the box of the two ends |
| Sampling.SlantedSamples | src/Designer.tsx:410-428 | when the pointer's x changed: ⌊\|dx\|⌋ + 1 points, stepping by ±1 toward the pointer, each on the line through last sample and pointer; the first is the last sample, and the last is the pointer when dx is whole |
| Sampling.VerticalSamples | src/Designer.tsx:429-439 | when the pointer's x did not change: ⌈\|dy\|⌉ points at the pointer's x stepping by ±1 in y toward the pointer, never at the pointer's own y; none exactly when the pointer has not moved |
| Sampling.SamplesBetween | src/Designer.tsx:410-439 | every emitted point lies in the box spanned by the last sample and the pointer |
| Sampling.HorizontalExample | src/Designer.tsx:418-422 | a move of four units to the right emits five points, ending at the pointer |
| Sampling.VerticalExample | src/Designer.tsx:430-433 | a move of three units down emits the start and the next two points, not the pointer |
| BrushBox.Farthest | src/Paper/Brush.tsx:17-22 | the seedless reduce returns a sample whose coordinate is at least every sample's, and the earliest such sample (every sample before it is strictly smaller) |
| BrushBox.MaxLeft | src/Paper/Brush.tsx:17-19 | `maxLeft` is a sample at least as far right as every sample, and the first such one |
| BrushBox.MaxTop | src/Paper/Brush.tsx:20-22 | `maxTop` is a sample at least as low as every sample, and the first such one |
| BrushBox.BoxSize | src/Paper/Brush.tsx:24-25 | the rendered width and height are non-negative |
| BrushBox.Offsets | src/Paper/Brush.tsx:52-54 | one dot per sample; dot plus stroke position is the sample |
| BrushBox.AnchoredBox | src/Paper/Brush.tsx:24-25 | for a stroke anchored at the top-left of its samples, the absolute values drop out: the box runs from the position to the rightmost and lowest samples |
| BrushBox.DotsInsideBox | src/Paper/Brush.tsx:17-54 | when the stroke's position is above-left of every sample, every dot lies in [0, width] × [0, height], and some dot touches the right edge and some the bottom edge |
| BrushBox.BoxExample | src/Paper/Brush.tsx:17-25 | samples (0,0), (5,0), (5,5) anchored at (0,0) give a 5 by 5 box |
| Paper.Target | src/Paper/Paper.tsx:146-193 | a handler emits only with its callback present, a selection, a defined selected id and a live entry under it, which is what it reads |
| Paper.Drag | src/Paper/Paper.tsx:142-152 | the emitted item is the live entry with position (e.left, e.top); restoring the old position gives the live entry back |
| Paper.ResizedPosition | src/Paper/Paper.tsx:163-172 | left moves back by delta[0] exactly when direction[0] is −1, top by delta[1] exactly when direction[1] is −1 |
| Paper.Resize | src/Paper/Paper.tsx:154-182 | the emitted item is the live entry with the resized position and size (e.width, e.height), and nothing else changed |
| Paper.Rotate | src/Paper/Paper.tsx:184-196 | the emitted item is the live entry with rotation e.rotate; restoring the old rotation gives the live entry back |
| Paper.AdaptersReadLiveItem | src/Paper/Paper.tsx:142-196 | with a stale selection snapshot the adapters still start from the live entry, keeping its id and type |
| Paper.ResizeKeepsOppositeEdge | src/Paper/Paper.tsx:166-176 | resizing a box from its left (top) handle by its change of width (height) keeps its right (bottom) edge fixed; other handles keep the position |
| Paper.ResizeExample | src/Paper/Paper.tsx:163-178 | a box at (10, 10) resized with directions (−1, −1) and delta (5, 5) moves to (5, 5) |
| Paper.Moveable | src/Paper/Paper.tsx:94-115 | no handles without a selection; drag and resize are offered exactly when `ables.resize`, rotate exactly when `ables.rotate` |
| Paper.CreatedItemControls | src/Paper/Paper.tsx:100-110 | placed boxes, images and lines get all three handles; text and brush strokes get rotation only, though a brush has `move` set |
| Paper.Join | src/Paper/Paper.tsx:86 | joining no parts gives the empty string, and joining one part gives that part |
| Paper.JoinConcat | src/Paper/Paper.tsx:86 | joining two non-empty runs puts exactly one ", " between their joins |
| Paper.Vertices | src/Paper/Paper.tsx:86 | one "left top" pair per area vertex, in order |
| Paper.ClipPath | src/Paper/Paper.tsx:84-87 | the clip path starts with "polygon(", ends with ")" and holds the joined vertex pairs in between |
| Paper.ClipPathAppend | src/Paper/Paper.tsx:84-87 | appending a vertex adds ", left top" just before the closing parenthesis |
| Designer.DefaultArea | src/Designer.tsx:48-71 | without a drawing area the area is the paper's four corners in order, starting at (0, 0), with axis-aligned edges |
| Designer.Init | src/Designer.tsx:35-83 | the constructor starts with no items, counter −1, nothing armed, drawn or selected, the initial fill, outline and font, and its own collection exactly when the host supplied one |
| Designer.Owned | src/Designer.tsx:157 | the add, change and remove handlers work on the designer's own collection when it keeps one and on the host's otherwise; there is none only when neither exists |
| Designer.AddItem | src/Designer.tsx:153-175 | the item joins a copy of the owned collection under lastItemId + 1, with that id; the counter grows by one; no other entry changes; the new item is being drawn; the host is handed the new collection if it listens; nothing else changes |
| Designer.SelectTool | src/Designer.tsx:181-199 | the tool is armed whatever was armed before, and nothing else changes |
| Designer.AddImage | src/Designer.tsx:177-179 | the image tool is armed with the loaded image, and nothing else changes |
| Designer.MouseDown | src/Designer.tsx:242-352 | with no armed tool, or an armed image tool without image information, nothing changes and nothing is emitted |
| Designer.MinCorner | src/Designer.tsx:441-448 | the stroke's new corner is the componentwise minimum of its old corner and the pointer |
| Designer.BrushMove | src/Designer.tsx:403-460 | the stroke keeps its id and the drawn snapshot's other fields; its samples are the live ones followed by the new samples; position and natural position are the new corner |
| Designer.MouseMove | src/Designer.tsx:353-463 | with nothing being drawn nothing changes, and only the collection ever changes |
| Designer.MouseUp | src/Designer.tsx:464-466 | disarms and leaves the drawing state, and nothing else changes |
| Designer.SelectItem | src/Designer.tsx:238-240 | sets the selection and nothing else |
| Designer.ChangeItem | src/Designer.tsx:201-218 | an item without an id changes nothing |
| Designer.RemoveItem | src/Designer.tsx:220-236 | an item without an id changes nothing |
| Designer.Restyle | src/Designer.tsx:471-486 | only the entry under the selected id is rewritten, and only when present; keys are kept |
| Designer.SetFill | src/Designer.tsx:468-490 | the remembered fill always becomes the new colour, and besides it only the collection may change |
| Designer.SetOutline | src/Designer.tsx:492-512 | the remembered outline always becomes the new colour, and besides it only the collection may change |
| Designer.SetFont | src/Designer.tsx:514-534 | the remembered font always becomes the new font, and besides it only the collection may change |
| DesignerProps.OwnedAfterInit | src/Designer.tsx:73-82 | a designer given a host collection works on its own collection, which starts empty; one given none has no collection to work on |
| DesignerProps.ReselectKeepsArmed | src/Designer.tsx:181-199 | selecting the armed tool again leaves it armed, and the next mouse-down still places an item |
| DesignerProps.MouseDownAddsOne | src/Designer.tsx:242-352 | with a tool armed, a mouse-down adds exactly one item, of the armed type, at the pointer, under the next id; other entries are unchanged; it disarms and forgets the image; the new item is being drawn unless it is text; defaults and selection are untouched |
| DesignerProps.MouseDownIdIsFresh | src/Designer.tsx:153-170 | when every id in use is at most the counter, the new id is unused and the collection grows by exactly one |
| DesignerProps.MouseMoveResizesBox | src/Designer.tsx:357-377 | drawing a box sets size and natural size to the signed pointer offset from its corner; the corner, type and all other fields and entries are kept |
| DesignerProps.MouseMoveStretchesLine | src/Designer.tsx:378-402 | drawing a line sets width and natural width to the pointer distance and rotation to the pointer angle; nothing else changes |
| DesignerProps.MouseMoveExtendsStroke | src/Designer.tsx:403-460 | drawing a brush stroke keeps the old samples as a prefix and appends the new samples; the new corner is above-left of both the old corner and the pointer and takes each coordinate from one of them |
| DesignerProps.MouseMoveInPlaceAddsNothing | src/Designer.tsx:429-433 | a move to the stroke's last sample adds no sample |
| DesignerProps.RemoveFromOwnCollection | src/Designer.tsx:220-229 | removing from the designer's own collection deletes exactly that id, shrinks the collection by one if it was present, leaves the drawing state, and keeps the counter |
| DesignerProps.RemoveFromHostCollection | src/Designer.tsx:220-234 | removing from the host's collection hands the host its collection without the id, leaves the drawing state, and does not touch the designer's own map |
| DesignerProps.NoCollectionIgnoresChangeAndRemove | src/Designer.tsx:201-236 | with no collection of either kind, a change or a removal of an item with an id (where the source throws) leaves the state unchanged and hands the host nothing |
| DesignerProps.ChangeOwnCollection | src/Designer.tsx:201-214 | changing an item stores it under its id, present or not, and changes nothing else |
| DesignerProps.ChangeHostCollection | src/Designer.tsx:201-217 | with host ownership the host is handed its collection with the item stored under its id; the state is untouched |
| DesignerProps.FillAppliesToFilledSelection | src/Designer.tsx:468-490 | the fill setter rewrites the selected entry only when the selection is a circle, rectangle or text with a present id, and then only its colour; no other entry changes |
| DesignerProps.OutlineAppliesToOutlinedSelection | src/Designer.tsx:492-512 | the outline setter rewrites the selected entry only when the selection is not text, and then only its outline colour |
| DesignerProps.FontAppliesToTextSelection | src/Designer.tsx:514-534 | the font setter rewrites the selected entry only when the selection is text, and then only its font name |
| DesignerProps.OutlineOnCircleAndText | src/Designer.tsx:492-512 | with a circle selected the outline setter recolours both default and circle; with text selected only the default |
| DesignerProps.WithoutHostCollectionOnlyLatestKept | src/Designer.tsx:81 | a designer given no host collection keeps only the newest item after each placement |
| Session.InitOk | src/Designer.tsx:73-82 | a fresh designer satisfies the invariant |
| Session.BrushMoveKeepsAnchor | src/Designer.tsx:441-457 | a stroke extended by a move keeps its samples non-empty and its corner above-left of all of them |
| Session.MoveKeepsInv | src/Designer.tsx:353-463 | a mouse-move keeps the invariant |
| Session.MouseDownState | src/Designer.tsx:242-352 | an armed mouse-down that creates an item changes exactly the collection (the owned one plus the stamped item under the next id), the counter, the tool, the pending image and the drawing state; colours, font, selection and ownership stay as they were |
| Session.DownKeepsInv | src/Designer.tsx:242-352 | a mouse-down keeps the invariant |
| Session.RestyleKeepsStore | src/Designer.tsx:468-534 | rewriting one entry with a setter that keeps id, type and stroke geometry keeps the collection well-formed |
| Session.BadChangeBreaksStore | src/Designer.tsx:201-214 | a change of the designer's own collection storing an item whose id is past the counter, or an empty or unanchored stroke, leaves a collection that breaks the invariant |
| Session.ChangeKeepsInv | src/Designer.tsx:201-218 | a change keeps the invariant exactly when it does not store an id past the counter, or an empty or unanchored stroke, into the designer's own collection |
| Session.FillKeepsInv | src/Designer.tsx:468-490 | the fill setter keeps the invariant |
| Session.OutlineKeepsInv | src/Designer.tsx:492-512 | the outline setter keeps the invariant |
| Session.FontKeepsInv | src/Designer.tsx:514-534 | the font setter keeps the invariant |
| Session.StepKeepsInv | src/Designer.tsx:153-534 | the invariant survives a step exactly when the step is not a change of the designer's own collection storing an id past the counter or an empty or unanchored stroke |
| Session.StepCounter | src/Designer.tsx:153-170 | in any state, only a mouse-down moves the counter, and then by exactly one |
| Session.StepIdCounter | src/Designer.tsx:153-170 | in a state that keeps the invariant, only a mouse-down moves the counter, by exactly one, to an id not in use before, so ids are never reused, even after removal |
| Session.ChangeAheadIsOverwritten | src/Designer.tsx:153-170 | a change storing an item under the next id is accepted, and the following mouse-down replaces that entry with the placed item without growing the collection: the id is handed out twice |
| Session.RunKeepsInv | src/Designer.tsx:153-534 | no sequence of events lowers the counter; one whose changes all store well-formed items keeps the invariant |
| Session.StrokesRenderInsideBox | src/Paper/Brush.tsx:17-54 | in every state that keeps the invariant, each stored stroke is non-empty and the dots the brush component would draw for it lie inside its box |
| Session.UnanchoredChangeDrawsOutside | src/Designer.tsx:201-214 | a change storing a stroke with a sample above or left of its position is accepted, and the brush component would draw that sample's dot outside the box |
| Session.SessionStrokesRenderInsideBox | src/Paper/Brush.tsx:17-54 | after any event sequence from a fresh designer whose changes all store well-formed items, the dots the brush component would draw for every stroke lie inside its box |

## Left out

- Rendering (JSX, CSS, class-name merging at `src/Designer.tsx:75`), the `cursor` choice, the toolbox, colour and font pickers, and the item components. They are presentation only.
- Image decoding in the toolbox is asynchronous browser I/O; `ImageInfo` is an input.
- The gesture library itself: its events are inputs. The adapters are not wired to the designer in this revision, so they are modelled on their own.
- React lifecycle and batching. `componentDidUpdate` only ever sets `useInternalItems` to false when it is already false, so it is a no-op.
- Floating point: the sampler works on exact reals, so IEEE rounding of `slope * x + intercept` is not reproduced, and neither is a slope that overflows to infinity for a tiny horizontal move. Line length and angle are uninterpreted functions.
- The host's collection object is mutated in place by the source before `onChangeItems` is called. The model hands the host a new map instead. When the callback is missing the source throws after the mutation; the model records nothing.
- Designer.ChangeItem / Designer.RemoveItem: on the designer's own collection the source writes into `this.state.items` in place (`src/Designer.tsx:211`, `src/Designer.tsx:226`). After a placement that object is the very map `addItem` handed to `onChangeItems` (`src/Designer.tsx:161-173`), so a later change or removal also rewrites the collection the host holds, without a callback. The model's emitted collections are values, so this aliasing is not modelled.
- Wiring: in this revision `Paper` reads none of the callbacks the designer passes it (`onChangeItem`, `onRemoveItem`, `onMouseDown`, `onMouseMove`, `onMouseUp`, `onSelectItem`, at `src/Designer.tsx:141-146`). Its close control calls an `onRemove` prop the designer does not pass. The handlers and `Session.Run` therefore model the code as written, not behaviour reachable from the user interface.
- Drawing: `Paper` draws only images, circles and rectangles (through `Basic`) and returns nothing for lines, text and brush strokes, so the brush component is not mounted in this revision. Lines, text and strokes are stored but not drawn; the brush-box lemmas state what the brush component would draw.
- Designer.ChangeItem: on the host's collection without `onChangeItems` the source throws after writing into the host's object; the model leaves everything unchanged. With no host collection at all (`props.items` undefined, so `useInternalItems` is false), the write at `src/Designer.tsx:211` throws a TypeError; the model leaves everything unchanged (`NoCollectionIgnoresChangeAndRemove`), so such a designer can never change an item.
- Designer.RemoveItem: with no host collection at all, the `delete` at `src/Designer.tsx:226` throws a TypeError; the model leaves everything unchanged (`NoCollectionIgnoresChangeAndRemove`), so such a designer can never remove an item.
- Designer.SetFill: when the selected id is no longer in the collection, the source writes a fragment holding only `color` under that id; the model leaves the collection unchanged. When the live entry's type differs from the selection's, the stray field the source adds is dropped.
- Designer.SetOutline: when the selected id is no longer in the collection, the source writes a fragment holding only `outlineColor` under that id; the model leaves the collection unchanged. A stray field on a live entry of another type is dropped.
- Designer.SetFont: when the selected id is no longer in the collection, the source writes a fragment holding only `fontName` under that id; the model leaves the collection unchanged. A stray field on a live entry of another type is dropped.
- DesignerProps.FillAppliesToFilledSelection: says nothing about the `{color}` fragment the source writes under an absent selected id, which the model does not write.
- DesignerProps.OutlineAppliesToOutlinedSelection: says nothing about the `{outlineColor}` fragment the source writes under an absent selected id, which the model does not write.
- DesignerProps.FontAppliesToTextSelection: says nothing about the `{fontName}` fragment the source writes under an absent selected id, which the model does not write.
- Paper.Drag: when the selected id has no live entry, the source emits a fragment holding only the position; the model emits nothing.
- Paper.Rotate: when the selected id has no live entry, the source emits a fragment holding only the rotation; the model emits nothing.
- BrushBox.Farthest: the seedless `reduce` at `src/Paper/Brush.tsx:17-22` throws on a stroke with no samples. `Farthest`, `MaxLeft`, `MaxTop` and `BoxSize` require at least one sample instead of modelling that throw. Strokes the designer places always have one, and the session invariant keeps them non-empty; only a change can store an empty stroke (`BadChangeBreaksStore`).
- Paper.Resize: on text and brush strokes, which are never offered the resize handle, the `size` field the source attaches is dropped.
- Designer.MouseMove: a brush stroke whose live entry is missing, not a brush, or has no samples makes the source throw; the model leaves the state unchanged.
- Session.RunKeepsInv: keeps the invariant only for runs whose changes all store well-formed items (`ChangesOk`). `StepKeepsInv` and `ChangeAheadIsOverwritten` show that other changes break it. The assumption rests on two facts. First, in this revision `Paper` invokes none of the designer's callbacks (see the Wiring line), so no change reaches the designer at all. Second, if its gesture handlers were wired they would forward only live entries, moved, resized or rotated, and never offer a drag or resize for a stroke.
- Session.SessionStrokesRenderInsideBox: holds only for runs whose changes all store well-formed items, for the reason given for RunKeepsInv; `UnanchoredChangeDrawsOutside` shows that for an unanchored stroke from a change, the brush component would draw a dot outside its box.
- Session.StepIdCounter: id freshness holds only in states that keep the invariant; after a change under the next id, the next mouse-down reuses that id (`ChangeAheadIsOverwritten`).
- Session.Run: `props` stays fixed through a run, so the host never feeds the collections handed to `onChangeItems` back in as new props.
- Number-to-text conversion in the clip path is JavaScript's; it is the parameter `show`.
