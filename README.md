# PaintByAryan editing core in Dafny

PaintByAryan is a browser paint program. Its behaviour lives in `app.js`: a stack of layer
canvases, a selection tool for rectangles, circles and lines, a paint bucket, and an undo
history of up to 20 snapshots. This project models the editing core of that file and proves
properties of the model.

- **`common.dfy`** (`Common`): `Option` (for `undefined`, `null` and NaN) and an integer absolute value.
- **`colour.dfy`** (`Colour`): `parseInt(…, 16)` as `hexToRgb` and `hexToRgba` use it, then
  `hexToRgb`, the channels of `hexToRgba`, and `colorsMatch` with its tolerance of 5.
  - `ToHex` is a reference encoder that writes a colour the way a colour picker reports it.
  - Decoding its output gives back the channels.
- **`flood_fill.dfy`** (`FloodFill`): the paint bucket runs in place on an `array` of RGBA bytes,
  with the explicit stack of the source.
  - `getColorAtPixel`, `getColorAtPosition` and `setColorAtPosition` are modelled as well.
  - The loop is proved against a one-pass function, `FillPass`.
  - The fill is proved sound: only pixels that matched the seed colour change, and they get the
    fill colour with alpha 255.
  - It is proved complete: every pixel 4-connected to the seed through matching pixels is filled.
  - It terminates, measured by the matching pixels left and then the stack height.
- **`geometry.dfy`** (`Geometry`): the `Shape` class, whose fields the selection tool updates in
  place.
  - The class has its constructor defaults and the methods `move` and `resize`.
  - Also modelled on the shape's value (`ShapeData`): `getBounds`, `containsPoint` with
    `distanceToLine`, the handle positions, the handle hit test, the 8-way resize table, the
    rotation step, and the normalisation `createShape` applies to a drag.
- **`undo_history.dfy`** (`UndoHistory`): `saveState`, `undo`, `redo` and the undo and redo
  button predicates, stated on the snapshot list and its cursor as values.
- **`editor.dfy`** (`Editor`): the global state of `app.js` as the class `Editor`, with fields
  `layers`, `activeLayerIndex`, `canvasHistory`, `historyIndex`, tool, style and selection flags.
  - Its methods are the event handlers of the core: `initCanvas`, `createLayer`, the layer
    buttons (add, delete, merge down, clear, select, toggle visibility), `saveState`,
    `restoreState`, `undo` and `redo`, `createShape`, tool selection, the three selection-tool
    handlers, and the delete-shape button.
  - Each method's `ensures` gives its whole new state in terms of the value functions above.

A layer canvas is not modelled as pixels but as the list of paint operations applied since it
was last cleared: fill white, draw a shape, draw another canvas. A snapshot keeps each layer's
name, canvas and visibility but not its shapes, exactly as `saveState` copies layers.

Facts about the code that the proofs make explicit:

- **`saveState` eviction.** The oldest snapshot is evicted only when the cursor already sits on
  the last of 20 entries.
  - So the cursor never loses track of the new snapshot.
  - After any save it is on the last entry (`UndoHistory.Saved`, `UndoHistory.SaveAllKeepsLatest`).
- **Stale `layerIndex`.** Deleting or merging a layer does not renumber the `layerIndex` of the
  shapes on the layers above.
  - The delete-shape button and `handleSelectionMove` use that stale index as written.
- **Merge copies.** Merging down rebuilds every copied shape through the constructor.
  - A zero line width or opacity becomes 1, and an empty colour becomes black
    (`Editor.CopyDataChanges`).
- **Rotation pivot.** The rotation handle turns a shape about `x + width/2, y + height/2`, also for
  a line, whose `containsPoint` and `draw` use the midpoint of its end points instead
  (`Geometry.Pivot`).
- **Undo drops shapes.** Undo and redo rebuild layers without their shape lists, so restoring a
  snapshot gives back the same layers exactly when no layer held shapes
  (`Editor.RestoredImages`).

## Model

| member | source | states |
|---|---|---|
| Colour.HexDigitsPrefix | app.js:1111 | the digits `parseInt` reads: a prefix of the input made only of hexadecimal digits, stopped at the first non-digit |
| Colour.ParseHexInt | app.js:1111 | `parseInt(s, 16)` is NaN exactly when no hexadecimal digit follows the optional sign and `0x` prefix |
| Colour.ParsesPlainDigits | app.js:1111 | a run of one or more hexadecimal digits parses to the number it denotes |
| Colour.Channel | app.js:1113-1115 | `(n >> shift) & 255` is a byte, NaN gives 0, and for a number it is the byte that places `n` modulo `256 << shift` between `c << shift` and `(c + 1) << shift` |
| Colour.ChannelsRecompose | app.js:1113-1115 | the three extracted channels recompose the value modulo 2^24 |
| Colour.HexToRgb | app.js:1110-1118 | channels are bytes and alpha is 255; they encode the parsed value modulo 2^24, and an unparsable string decodes to black |
| Colour.HexToRgba | app.js:1033-1040 | the stroke style carries the same channels as `hexToRgb` and the given opacity |
| Colour.ColorsMatch | app.js:1102-1108 | `colorsMatch`: each of red, green and blue differs by at most 5, and alpha is ignored; its properties are the two lemmas below |
| Colour.ColorsMatchSymmetric | app.js:1102-1108 | the tolerance test does not depend on the order of its arguments |
| Colour.ColorsMatchReflexive | app.js:1102-1108 | every colour matches itself |
| Colour.ToHexParses | app.js:1111 | the six digits of a picker colour parse to `r*65536 + g*256 + b` |
| Colour.PackedChannels | app.js:1113-1115 | shifting and masking a packed value recovers each of its three channels |
| Colour.DecodesPacked | app.js:1110-1118 | a string whose digits parse to a packed value decodes to that value's channels, opaque |
| Colour.HexToRgbOfToHex | app.js:1110-1118 | decoding a picker colour gives back its channels with alpha 255 (round trip) |
| FloodFill.ColorAtPixel | app.js:1081-1093 | the colour read at a point is defined exactly when its four bytes exist, and is then the colour of pixel `y*width + x` |
| FloodFill.ColorAtPosition | app.js:1086-1093 | `getColorAtPosition`: the four bytes from `pos` on are red, green, blue and alpha; read back after a write by `PxAfterSetPixel` |
| FloodFill.IndexInRange | app.js:1062-1066 | an in-bounds point's pixel number lies in `0 .. width*height` |
| FloodFill.IndexInjective | app.js:1062 | two in-bounds points with the same pixel number are the same point |
| FloodFill.SetPixel | app.js:1095-1100 | writing a colour changes only the four bytes at the position, which read back as the channels with alpha 255 |
| FloodFill.SetColorAtPosition | app.js:1095-1100 | the array afterwards is `SetPixel` of its old contents |
| FloodFill.PxAfterSetPixel | app.js:1095-1100 | after a write, the written pixel reads as the colour with alpha 255 and every other pixel is unchanged |
| FloodFill.Neighbours | app.js:1071-1074 | every 4-adjacent point is pushed |
| FloodFill.MatchCountAfterWrite | app.js:1067-1069 | filling a matching pixel with a non-matching colour lowers the number of matching pixels by one |
| FloodFill.WriteKeepsClosed | app.js:1064-1074 | filling a pixel and pushing its neighbours keeps every filled pixel's fillable neighbours filled or on the stack |
| FloodFill.SkipStep | app.js:1060-1068 | popping a point that is off the canvas or not matching keeps the invariant |
| FloodFill.PassKeepsInvariant | app.js:1060-1076 | one pass keeps "only matching pixels changed, to the fill colour", keeps the closure invariant, and strictly lowers (matching pixels, stack height) |
| FloodFill.FillStep | app.js:1061-1075 | one loop iteration on the array performs exactly `FillPass` on the contents and the stack |
| FloodFill.PathFilled | app.js:1060-1076 | with an empty stack, filling spreads along every matching 4-connected path from a filled pixel |
| FloodFill.FillReachesComponent | app.js:1060-1076 | with an empty stack, every pixel on a matching 4-connected path from the seed holds the fill colour |
| FloodFill.FloodFill | app.js:1043-1079 | unchanged when the seed colour already matches the fill; otherwise only pixels matching the seed colour change, to the fill with alpha 255, and every pixel of the seed's matching 4-connected component is filled |
| Geometry.HandleIndex | app.js:85 | every handle has its place in the creation order `tl, t, tr, r, br, b, bl, l` |
| Geometry.FromProps | app.js:194-208 | the constructor keeps every given geometry field, rotation and layer index (0 otherwise); line width, opacity and colour are never falsy, and keep any truthy given value |
| Geometry.Shape.constructor | app.js:194-208 | the new object's fields are `FromProps` of the properties |
| Geometry.Bounds | app.js:324-346 | the stored box for a rectangle or circle; for a line the smallest box whose edges pass through its end points |
| Geometry.NearSegment | app.js:248-269 | `distanceToLine(...) < 5` with square roots compared through their squares: past either end the nearer end point decides, and a segment of length zero is never near (0 divided by 0) |
| Geometry.NearLine | app.js:248-269 | the segment test for a line shape, at the point relative to the line's start |
| Geometry.ZeroLengthLineMissed | app.js:248-269 | a line whose end is its start contains no point, since its distance is NaN |
| Geometry.ContainsPoint | app.js:211-245 | `containsPoint`: the point rotated back by the shape's rotation about its centre, then tested against the box, disc or segment; its properties are the three lemmas below |
| Geometry.LineEquationRelative | app.js:248-269 | the line-equation numerator depends only on the point relative to the line's start |
| Geometry.ContainsPointUnrotated | app.js:211-245 | at rotation 0 the hit test is the plain box, disc or segment test |
| Geometry.ContainsPointRotates | app.js:211-245 | the rotated shape contains a point rotated with it exactly when the unrotated shape contains the original point |
| Geometry.ContainsPointMoved | app.js:211-245 | the moved shape contains exactly the moved points |
| Geometry.Moved | app.js:368-377 | `move` shifts the anchor, shifts a line's end point too, and changes nothing else |
| Geometry.MovedBack | app.js:368-377 | moving by the opposite offset restores the shape |
| Geometry.MovedTwice | app.js:368-377 | two moves add up to one by the summed offset |
| Geometry.BoundsMoved | app.js:324-346 | a move translates the bounds and the centre and keeps the size |
| Geometry.Shape.Move | app.js:368-377 | the object's fields afterwards are `Moved` of its old fields |
| Geometry.Resized | app.js:349-365 | a box takes the new size (a circle's radius is half the larger side); a line keeps its start and takes a new end; nothing else changes |
| Geometry.Shape.Resize | app.js:349-365 | the object's fields afterwards are `Resized` of its old fields |
| Geometry.HandlePosition | app.js:860-896 | `getHandleBounds`: the handle's point on the bounds rotated by the shape's rotation about the centre of the bounds |
| Geometry.RotationHandlePosition | app.js:898-923 | `getRotationHandleBounds`: the point 20 above the middle of the top edge, rotated likewise |
| Geometry.HandlePositionUnrotated | app.js:860-923 | at rotation 0 each resize handle sits on its corner or edge midpoint, and the rotation handle 20 above the middle of the top edge |
| Geometry.HandleDistanceKept | app.js:860-896 | rotation keeps every handle at its unrotated distance from the centre of the bounds |
| Geometry.HitHandle | app.js:606-622 | the handle returned is the first in creation order whose square holds the click; none exactly when no square holds it |
| Geometry.HandleTable | app.js:668-703 | the size and position each handle asks for: the dragged corner or edge follows the pointer, the opposite one stays, and no handle keeps everything; its effect is stated by `HandleDragged` and the handle lemmas below |
| Geometry.HandleDragged | app.js:659-713 | a resized box is at least 1 by 1, a circle's radius follows its size, and only position and size change |
| Geometry.LeftHandlesKeepRightEdge | app.js:668-707 | left-side handles put the left edge at the pointer and keep the right edge when the width asked for exceeds 1 |
| Geometry.TopHandlesKeepBottomEdge | app.js:668-707 | top-side handles put the top edge at the pointer and keep the bottom edge when the height asked for exceeds 1 |
| Geometry.FarHandlesKeepAnchor | app.js:684-713 | right and bottom handles never move the anchor and put the dragged edge at the pointer |
| Geometry.MixedCornersFarEdge | app.js:679-713 | the top-right handle keeps `x` and puts the right edge at the pointer, and the bottom-left handle keeps `y` and puts the bottom edge at the pointer, when the size asked for exceeds 1 |
| Geometry.EdgeHandlesKeepOtherAxis | app.js:675-713 | edge handles leave the other axis alone apart from flooring its size at 1 |
| Geometry.CollapsedAxisKeepsAnchor | app.js:705-713 | an axis whose size asked for is at most 1 keeps its anchor and gets size exactly 1 |
| Geometry.CreationProps | app.js:506-584 | the properties `createShape` passes: the style's colour, width and opacity and the active layer, plus the drag's box, circle or end points |
| Geometry.CreatedShape | app.js:506-584 | the shape `createShape` builds from those properties; what it holds is stated by the three lemmas below |
| Geometry.CreatedRectangle | app.js:512-540 | a dragged rectangle is normalised to the smaller corner and the absolute extents in either drag direction, unrotated, on the given layer |
| Geometry.CreatedCircle | app.js:542-555 | a dragged circle has the drag length as radius and a square box centred on the start point |
| Geometry.CreatedLine | app.js:557-570 | a dragged line keeps both points and its bounds have its stored size |
| Geometry.RectangleExamples | app.js:512-540 | the drags (50,50)→(150,120) and (50,50)→(20,10) give the boxes (50,50,100,70) and (20,10,30,40) |
| Geometry.CircleExample | app.js:542-555 | the drag (100,100)→(130,100) gives radius 30 and box (70,70,60,60) |
| Geometry.PointerAngle | app.js:599-602 | `Math.atan2` of the pointer seen from the centre of the stored box, as at the press and at each rotating move |
| Geometry.Trunc | app.js:732 | rounding toward zero: within 1 of the input on the side of 0 |
| Geometry.WrapDegrees | app.js:732 | JavaScript's `% 360`: strictly between -360 and 360, with the sign of the input, differing from it by a whole number of turns |
| Geometry.Rotated | app.js:723-733 | one rotating move leaves the rotation strictly between -360 and 360 and changes nothing else |
| UndoHistory.Empty | app.js:36-37 | the history starts empty with cursor -1 |
| UndoHistory.Saved | app.js:1121-1157 | after a save the cursor is on the new snapshot, which follows the entries up to the old cursor, minus the oldest when 20 were kept; nothing else enters the list |
| UndoHistory.CanUndo | app.js:1199-1202 | the undo button is enabled exactly when the cursor is above 0 |
| UndoHistory.CanRedo | app.js:1199-1202 | the redo button is enabled exactly when the cursor is below the last entry |
| UndoHistory.Undone | app.js:1159-1165 | undo moves the cursor back by one when the undo button is enabled, otherwise changes nothing; the list is unchanged |
| UndoHistory.Redone | app.js:1167-1173 | redo moves the cursor forward by one when the redo button is enabled, otherwise changes nothing; the list is unchanged |
| UndoHistory.RedoAfterUndo | app.js:1159-1173 | redo after an undo returns to the same history |
| UndoHistory.UndoAfterRedo | app.js:1159-1173 | undo after a redo returns to the same history |
| UndoHistory.SaveClearsRedo | app.js:1121-1157 | after a save redo is disabled, and undo is enabled exactly when the history was not empty |
| UndoHistory.SaveAfterUndoForgetsFuture | app.js:1121-1165 | saving after an undo replaces the undone snapshot and everything after it by the new one |
| UndoHistory.UndoAfterSave | app.js:1121-1165 | undo right after a save brings back the snapshot that was current before it, with or without eviction |
| UndoHistory.SaveAllKeepsLatest | app.js:1121-1157 | any number of saves from the empty history keep exactly the latest 20 snapshots in order, the cursor on the last |
| UndoHistory.UndoCursor | app.js:1159-1165 | `k` undos from cursor `i >= k` leave the cursor at `i - k` |
| UndoHistory.UndoReachesEarlierSnapshot | app.js:1121-1165 | after saving a run of snapshots, `k` undos bring back the `k`-th latest before the last while it is still kept |
| Editor.Images | app.js:1128-1141 | a snapshot keeps each layer's name, canvas and visibility, one per layer |
| Editor.Restored | app.js:1179-1192 | restoring rebuilds one layer per stored image, with its name, canvas and visibility and no shapes |
| Editor.ImagesOfRestored | app.js:1128-1192 | taking a snapshot of restored layers gives the stored images back |
| Editor.RestoredImages | app.js:1128-1192 | restoring a snapshot gives back the same layers exactly when no layer held shapes |
| Editor.DrawAll | app.js:938-943 | drawing a shape list paints each shape once, in order |
| Editor.Redrawn | app.js:925-944 | redrawing a layer that exists clears its canvas (white on the bottom layer) and draws its shapes in order; other layers and a missing layer are untouched |
| Editor.RedrawnTwice | app.js:925-944 | redrawing keeps every layer's shapes, and redrawing twice is redrawing once |
| Editor.RedrawLayerWithShapes | app.js:925-944 | the loop produces `Redrawn` of the layer list |
| Editor.NewLayer | app.js:105-122 | a new layer has the given name unless missing or empty (else "Layer n+1"), is visible, has no shapes, and is white only as the first layer |
| Editor.CopyData | app.js:1364-1379 | the properties a merged copy is built from: every field of the original, on the target layer; what the constructor then makes of them is `CopyDataChanges` |
| Editor.CopyDataChanges | app.js:1364-1379 | a merged copy is the original on the target layer, except that an empty colour becomes black and a zero line width or opacity becomes 1; it is faithful exactly when none of these is falsy |
| Editor.IndexOf | app.js:1497 | `findIndex` with `===` finds the first position of the shape |
| Editor.WithoutShape | app.js:1497-1499 | `splice` removes exactly that one occurrence from the layer, keeping the order and every other layer and field |
| Editor.TopmostHitUnique | app.js:625-644 | the topmost shape under a point is unique |
| Editor.TopmostHitExcludesNoHit | app.js:625-644 | a topmost hit and "no shape hit" exclude each other |
| Editor.FindShapeAt | app.js:625-644 | the search returns the topmost shape of a visible layer containing the point, and nothing exactly when no such shape exists |
| Editor.DragFollowsPointer | app.js:743-756 | dragging through any series of pointer positions moves the shape by the first-to-last displacement |
| Editor.DragHandle | app.js:659-713 | the resizing branch leaves the object's fields at `HandleDragged` of their old values |
| Editor.RotateToPointer | app.js:723-733 | the rotating branch leaves the object's fields at `Rotated` of their old values and returns the new pointer angle |
| Editor.ApplyGesture | app.js:659-753 | the shape update for the gesture under way is `PointerMoved` of the old fields |
| Editor.Editor.constructor | app.js:28-74 | the initial globals and `initCanvas`: brush tool, black 5-pixel opaque style, no selection, one white visible "Background" layer, active, and a history holding exactly its snapshot |
| Editor.Editor.CreateLayer | app.js:105-128 | appends `NewLayer` and makes it active |
| Editor.Editor.SaveState | app.js:1121-1157 | the history afterwards is `Saved` of the old one with a snapshot of the current layers and active index |
| Editor.Editor.RestoreState | app.js:1175-1197 | the layers and active index become those of the snapshot under the cursor |
| Editor.Editor.Undo | app.js:1159-1165 | the history becomes `Undone`; it reports a move exactly when undo was enabled, and then restores the new current snapshot, else changes nothing |
| Editor.Editor.Redo | app.js:1167-1173 | the history becomes `Redone`; it reports a move exactly when redo was enabled, and then restores the new current snapshot, else changes nothing |
| Editor.Editor.AddLayer | app.js:1325-1328 | a default-named layer is appended and made active, then a snapshot is saved |
| Editor.Editor.SelectLayer | app.js:161-164 | the chosen layer becomes active; nothing is saved |
| Editor.Editor.ToggleVisibility | app.js:153-158 | exactly that layer's visibility flips; nothing is saved |
| Editor.Editor.ClearLayer | app.js:1293-1312 | once confirmed, the active layer is cleared (white when bottom) and loses its shapes, then a snapshot is saved; otherwise nothing changes |
| Editor.Editor.DeleteLayer | app.js:1330-1343 | refused with one layer; once confirmed, the active layer is removed, the index clamped to the last layer, and a snapshot saved |
| Editor.Editor.CopyShapes | app.js:1364-1381 | one fresh, distinct copy per source shape, in order, each `CopyData` of its original |
| Editor.Editor.MergedLayers | app.js:1352-1385 | the layer list after merging: `MergedDown` (target keeps its fields and shapes, gains the source canvas if visible and as many shapes as the source; source removed) with `MergedCopies` (the new shapes are fresh copies of the source's) |
| Editor.Editor.MergeDown | app.js:1345-1392 | refused on the bottom layer or with one layer; once confirmed, the layers become the merged list, the target becomes active, and a snapshot is saved |
| Editor.Editor.DeleteSelectedShape | app.js:1491-1506 | deletes exactly when the selected shape is in the layer its `layerIndex` names; then it is removed there, that layer redrawn, the selection cleared and a snapshot saved; otherwise nothing changes |
| Editor.Editor.CreateShape | app.js:506-584 | on a hidden active layer nothing changes; otherwise a fresh shape `CreatedShape` with the current style is appended to the active layer, drawn on it, and selected |
| Editor.Editor.SelectTool | app.js:1238-1261 | the tool is set, and any tool but the selection tool drops the selection |
| Editor.Editor.HandleSelectionClick | app.js:587-654 | the press point becomes the last pointer position, as `startDrawing` records it before the call, so a drag is measured from it; the rotation handle wins first, then the first resize handle in order, then the topmost shape (selected, dragging starts); with no hit the selection is dropped |
| Editor.Editor.SelectAt | app.js:625-653 | selects the topmost hit and starts dragging, or drops the selection when nothing is hit |
| Editor.Editor.HandleSelectionMove | app.js:656-757 | the selected shape follows the gesture under way (resize, then rotate, then drag) and its layer is redrawn; the rotate gesture records the new angle; the pointer position is always recorded |
| Editor.Editor.HandleSelectionEnd | app.js:759-765 | every selection flag is reset and a snapshot saved |

## Left out

- User interface: the DOM, panels, cursors, the selection box, handle elements, and the form
  fields that `selectShape`, `deselectShape`, `updateSelectionUI`, `updateHandles` and
  `updateLayersPanel` fill in. Only their effect on the editor state is kept.
- `renderCanvas` and the compositing of layers into the visible canvas are left out: they
  change no model state.
- `Shape.draw`: drawing a shape is an opaque paint operation carrying the shape's fields.
- `startDrawing`, `draw`, `stopDrawing` and `drawShapePreview` are the pointer glue that
  dispatches to the modelled handlers. They are left out, apart from the press point that
  `startDrawing` records before a selection click, which `HandleSelectionClick` records itself.
  The temporary preview canvas is left out too.
- The brush, pencil and eraser strokes are left out, and so is the text tool (`createTextInput`,
  `commitText`, `removeTextInput`): they paint pixels through the canvas API.
- `getMousePos` is left out: pointer positions are given to the handlers directly.
- Window resizing, the save-as-image button, recent colours (`addToRecentColors`) and the colour,
  line-width and opacity inputs are left out. The style is a field of the editor.
- The width, height and rotation inputs of the selected shape (`setupShapeControls`) are left out.
- `Math.sqrt`, `Math.cos`, `Math.sin` and `Math.atan2` are parameters (`MathLib`), with angles in
  degrees. Numbers are exact reals, not doubles; NaN and the infinities are not modelled, except
  where a NaN parse decides a branch.
- Colour.ParseHexInt: leading whitespace is not skipped, and values beyond 2^53 are exact
  rather than rounded.
- Colour.HexToRgba: the `rgba(…)` string is not built; only its channels and opacity are returned.
- FloodFill.FloodFill: the seed is an integer point, so the `Math.floor` in `getColorAtPixel`
  is the identity. Reading and writing the image data of the canvas are left out.
- Layer canvases: the pixel content of a canvas is a list of paint operations, and the snapshot
  copy of a canvas copies that list.
- `confirm` and `alert` are a boolean parameter and the `Refused` outcome.
- `updateUndoRedoButtons` only sets two button states. They are `UndoHistory.CanUndo` and
  `UndoHistory.CanRedo`, stated inside the contracts of `Undone`, `Redone`, `Undo` and `Redo`.
