/**
 * The editor's state: the layer stack, the active layer, the snapshot history, the current tool
 * and style, and the selection tool's state. Layer surfaces are not pixels here but the list of
 * paint operations applied to a blank canvas since it was last cleared.
 */
module Editor {
  import opened Common
  import opened Geometry
  import UndoHistory

  /** A paint operation on a layer's canvas. */
  datatype Paint =
    | FillWhite                        // `fillRect` of the whole canvas in white
    | DrawShape(shape: ShapeData)      // `shape.draw(context)`
    | DrawImage(source: seq<Paint>)    // `drawImage` of another layer's canvas

  /** What a layer's canvas shows: the paint applied, in order, since it was last cleared. */
  type Surface = seq<Paint>

  /**
   * A layer. A layer restored from a snapshot has no shape list; every use of the list treats a
   * missing one as empty, and so does the model.
   */
  datatype Layer = Layer(name: string, surface: Surface, visible: bool, shapes: seq<Shape>)

  /** What a snapshot keeps of a layer: the name, a copy of the canvas and the visibility. */
  datatype LayerImage = LayerImage(name: string, surface: Surface, visible: bool)

  /** An entry of the history. */
  datatype Snapshot = Snapshot(layers: seq<LayerImage>, activeLayerIndex: int)

  datatype Tool = Brush | Pencil | Eraser | Fill | Text | Select | ShapeTool(kind: ShapeKind)

  /** How a confirmed layer action ended: refused by its guard, declined at the prompt, or done. */
  datatype Outcome = Refused | Declined | Done

  /** What a click of the selection tool landed on. */
  datatype Click = OnRotationHandle | OnHandle(handle: Handle) | OnShape(layer: nat, index: nat) | OnNothing

  // ---------------------------------------------------------------------------------------------
  // Snapshots

  function Image(l: Layer): LayerImage {
    LayerImage(l.name, l.surface, l.visible)
  }

  /** The layer copies `saveState` stores. */
  function Images(ls: seq<Layer>): (imgs: seq<LayerImage>)
    ensures |imgs| == |ls| && forall i :: 0 <= i < |ls| ==> imgs[i] == Image(ls[i])
  {
    seq(|ls|, i requires 0 <= i < |ls| => Image(ls[i]))
  }

  /** The layers `restoreState` rebuilds from a snapshot: same name, canvas and visibility, no shapes. */
  function Restored(imgs: seq<LayerImage>): (ls: seq<Layer>)
    ensures |ls| == |imgs|
    ensures forall i :: 0 <= i < |imgs| ==> ls[i] == Layer(imgs[i].name, imgs[i].surface, imgs[i].visible, [])
  {
    seq(|imgs|, i requires 0 <= i < |imgs| => Layer(imgs[i].name, imgs[i].surface, imgs[i].visible, []))
  }

  function SnapshotOf(ls: seq<Layer>, active: int): Snapshot {
    Snapshot(Images(ls), active)
  }

  /** A snapshot taken of a valid editor: some layers and an active index among them. */
  predicate SnapshotOk(s: Snapshot) {
    |s.layers| > 0 && 0 <= s.activeLayerIndex < |s.layers|
  }

  /** Restoring a snapshot and taking it again gives the same snapshot. */
  lemma ImagesOfRestored(imgs: seq<LayerImage>)
    ensures Images(Restored(imgs)) == imgs
  {
  }

  /**
   * Taking a snapshot and restoring it gives back the same layers exactly when no layer holds
   * shapes: the shape lists are not part of a snapshot, so undo and redo drop them.
   */
  lemma RestoredImages(ls: seq<Layer>)
    ensures Restored(Images(ls)) == ls <==> forall i :: 0 <= i < |ls| ==> ls[i].shapes == []
  {
    if Restored(Images(ls)) == ls {
      forall i | 0 <= i < |ls| ensures ls[i].shapes == [] {
        assert Restored(Images(ls))[i].shapes == [];
      }
    }
  }

  // ---------------------------------------------------------------------------------------------
  // Layers and their shapes

  /** The shape objects listed by the layers. */
  ghost function ShapeSet(ls: seq<Layer>): set<Shape> {
    set j, k | 0 <= j < |ls| && 0 <= k < |ls[j].shapes| :: ls[j].shapes[k]
  }

  /** The paint of drawing `shapes` in order. */
  function DrawAll(shapes: seq<Shape>): (ops: Surface)
    reads shapes
    ensures |ops| == |shapes|
    ensures forall k :: 0 <= k < |shapes| ==> ops[k] == DrawShape(shapes[k].Data())
  {
    if shapes == [] then [] else DrawAll(shapes[..|shapes| - 1]) + [DrawShape(shapes[|shapes| - 1].Data())]
  }

  /** A layer's canvas just after it is cleared: blank, or white for the bottom layer. */
  function Cleared(index: int): Surface {
    if index == 0 then [FillWhite] else []
  }

  /**
   * `redrawLayerWithShapes(index)` on the layer list: nothing when there is no such layer,
   * otherwise that layer's canvas is cleared and its shapes drawn in order.
   */
  function Redrawn(ls: seq<Layer>, index: int): (r: seq<Layer>)
    reads if 0 <= index < |ls| then ls[index].shapes else []
    ensures |r| == |ls|
    ensures forall j :: 0 <= j < |ls| && j != index ==> r[j] == ls[j]
    ensures 0 <= index < |ls| ==>
              r[index] == ls[index].(surface := Cleared(index) + DrawAll(ls[index].shapes))
  {
    if 0 <= index < |ls| then
      ls[index := ls[index].(surface := Cleared(index) + DrawAll(ls[index].shapes))]
    else
      ls
  }

  /** Redrawing a layer twice is redrawing it once: the result depends only on its shapes. */
  lemma RedrawnTwice(ls: seq<Layer>, index: int)
    ensures ShapeSet(Redrawn(ls, index)) == ShapeSet(ls)
    ensures Redrawn(Redrawn(ls, index), index) == Redrawn(ls, index)
  {
    var r := Redrawn(ls, index);
    assert forall j :: 0 <= j < |ls| ==> r[j].shapes == ls[j].shapes;
  }

  /**
   * `redrawLayerWithShapes(index)`: when the layer exists, its canvas is cleared (white for the
   * bottom layer) and its shapes drawn in order; the returned list is the new layer list.
   */
  method RedrawLayerWithShapes(ls: seq<Layer>, index: int) returns (r: seq<Layer>)
    ensures r == Redrawn(ls, index)
  {
    r := ls;
    if 0 <= index < |ls| {
      var shapes := ls[index].shapes;
      var surface := Cleared(index);
      var i := 0;
      while i < |shapes|
        invariant 0 <= i <= |shapes|
        invariant surface == Cleared(index) + DrawAll(shapes[..i])
      {
        assert shapes[..i + 1][..i] == shapes[..i];
        surface := surface + [DrawShape(shapes[i].Data())];
        i := i + 1;
      }
      assert shapes[..i] == shapes;
      r := ls[index := ls[index].(surface := surface)];
    }
  }

  /**
   * `r` is `ls` with layer `a` merged into the layer below it: the lower layer keeps its name,
   * visibility, canvas and shapes, gains the upper canvas as an image when that one is visible,
   * and gains as many shapes as the upper layer holds (`MergedCopies` says what they are);
   * layer `a` is gone and the others are untouched.
   */
  ghost predicate MergedDown(ls: seq<Layer>, r: seq<Layer>, a: int)
    requires 0 < a < |ls|
  {
    && |r| == |ls| - 1
    && r[..a - 1] == ls[..a - 1] && r[a..] == ls[a + 1..]
    && var source, target, m := ls[a], ls[a - 1], r[a - 1];
    && m.name == target.name && m.visible == target.visible
    && m.surface == target.surface + (if source.visible then [DrawImage(source.surface)] else [])
    && |m.shapes| == |target.shapes| + |source.shapes|
    && m.shapes[..|target.shapes|] == target.shapes
  }

  /** The shapes `MergedDown` appends to layer `a - 1` are copies of layer `a`'s, re-tagged. */
  ghost predicate MergedCopies(ls: seq<Layer>, r: seq<Layer>, a: int)
    requires 0 < a < |ls| && MergedDown(ls, r, a)
    reads ls[a].shapes, r[a - 1].shapes
  {
    CopiesOf(r[a - 1].shapes[|ls[a - 1].shapes|..], ls[a].shapes, a - 1)
  }

  /** The default name of the `n + 1`-th layer. */
  function DefaultLayerName(count: nat): string {
    "Layer " + NatToString(count + 1)
  }

  function NatToString(n: nat): (s: string)
    ensures |s| > 0
  {
    var digit := "0123456789"[n % 10];
    if n < 10 then [digit] else NatToString(n / 10) + [digit]
  }

  /**
   * The layer `createLayer(name)` appends to `count` existing ones: the given name unless it is
   * missing or empty, a white canvas when it is the first layer, visible, no shapes.
   */
  function NewLayer(name: Option<string>, count: nat): (l: Layer)
    ensures l.visible && l.shapes == []
    ensures l.surface == Cleared(count)
    ensures l.name == (if name.Some? && name.value != "" then name.value else DefaultLayerName(count))
  {
    Layer(if name.Some? && name.value != "" then name.value else DefaultLayerName(count),
          if count == 0 then [FillWhite] else [], true, [])
  }

  /**
   * The copy of a shape that merging down puts on the target layer: every property passed
   * through the constructor, with the target's index.
   */
  function CopyData(d: ShapeData, target: int): ShapeData {
    FromProps(d.kind, Props(Some(d.x), Some(d.y), Some(d.width), Some(d.height), Some(d.radius),
                            Some(d.endX), Some(d.endY), Some(d.color), Some(d.lineWidth),
                            Some(d.opacity), Some(d.rotation), Some(target)))
  }

  /** Each of `copies` holds the merged copy of the corresponding original, for layer `target`. */
  predicate CopiesOf(copies: seq<Shape>, originals: seq<Shape>, target: int)
    reads copies, originals
  {
    && |copies| == |originals|
    && forall i :: 0 <= i < |copies| ==> copies[i].Data() == CopyData(originals[i].Data(), target)
  }

  /**
   * A merged copy equals the original moved to the target layer, except that the constructor's
   * defaults turn an empty colour into black and a zero line width or opacity into 1; so the
   * copy is faithful exactly when none of those three is falsy.
   */
  lemma CopyDataChanges(d: ShapeData, target: int)
    ensures CopyData(d, target) == d.(layerIndex := target,
                                      color := if d.color == "" then "#000000" else d.color,
                                      lineWidth := if d.lineWidth == 0.0 then 1.0 else d.lineWidth,
                                      opacity := if d.opacity == 0.0 then 1.0 else d.opacity)
    ensures CopyData(d, target) == d.(layerIndex := target) <==> d.color != "" && d.lineWidth != 0.0 && d.opacity != 0.0
  {
  }

  /** The first position of `x` in `s`, as `findIndex` with `===` finds it. */
  function IndexOf<T(==)>(s: seq<T>, x: T): (i: nat)
    requires x in s
    ensures i < |s| && s[i] == x && x !in s[..i]
  {
    if s[0] == x then 0 else assert s == [s[0]] + s[1..]; 1 + IndexOf(s[1..], x)
  }

  /** The layers with the first occurrence of `shape` removed from layer `li`'s shapes. */
  function WithoutShape(ls: seq<Layer>, li: nat, shape: Shape): (r: seq<Layer>)
    requires li < |ls| && shape in ls[li].shapes
    ensures |r| == |ls| && forall j :: 0 <= j < |ls| && j != li ==> r[j] == ls[j]
    ensures r[li].(shapes := ls[li].shapes) == ls[li]
    ensures var k := IndexOf(ls[li].shapes, shape);
            r[li].shapes == ls[li].shapes[..k] + ls[li].shapes[k + 1..]
    ensures multiset(r[li].shapes) == multiset(ls[li].shapes) - multiset{shape}
  {
    var shapes := ls[li].shapes;
    var k := IndexOf(shapes, shape);
    assert shapes == shapes[..k] + [shape] + shapes[k + 1..];
    ls[li := ls[li].(shapes := shapes[..k] + shapes[k + 1..])]
  }

  // ---------------------------------------------------------------------------------------------
  // Hit testing over the layer stack

  predicate Hits(s: Shape, px: real, py: real, m: MathLib)
    reads s
  {
    ContainsPoint(s.Data(), px, py, m)
  }

  /** No shape of a visible layer contains the point. */
  predicate NoShapeHit(ls: seq<Layer>, px: real, py: real, m: MathLib)
    reads ShapeSet(ls)
  {
    forall j, k :: 0 <= j < |ls| && ls[j].visible && 0 <= k < |ls[j].shapes| ==> !Hits(ls[j].shapes[k], px, py, m)
  }

  /**
   * Shape `index` of layer `layer` is the topmost one containing the point: its layer is visible,
   * and no shape of a higher visible layer, nor a later shape of the same layer, contains it.
   */
  predicate IsTopmostHit(ls: seq<Layer>, layer: nat, index: nat, px: real, py: real, m: MathLib)
    reads ShapeSet(ls)
  {
    && layer < |ls| && ls[layer].visible && index < |ls[layer].shapes|
    && Hits(ls[layer].shapes[index], px, py, m)
    && (forall k :: index < k < |ls[layer].shapes| ==> !Hits(ls[layer].shapes[k], px, py, m))
    && (forall j, k :: layer < j < |ls| && ls[j].visible && 0 <= k < |ls[j].shapes| ==> !Hits(ls[j].shapes[k], px, py, m))
  }

  /** The topmost hit is unique. */
  lemma TopmostHitUnique(ls: seq<Layer>, l1: nat, i1: nat, l2: nat, i2: nat, px: real, py: real, m: MathLib)
    requires IsTopmostHit(ls, l1, i1, px, py, m) && IsTopmostHit(ls, l2, i2, px, py, m)
    ensures l1 == l2 && i1 == i2
  {
  }

  /** A topmost hit and no hit at all exclude each other. */
  lemma TopmostHitExcludesNoHit(ls: seq<Layer>, layer: nat, index: nat, px: real, py: real, m: MathLib)
    requires IsTopmostHit(ls, layer, index, px, py, m)
    ensures !NoShapeHit(ls, px, py, m)
  {
  }

  /**
   * The search of `handleSelectionClick`: layers from the top down, skipping hidden ones, and
   * within a layer the shapes from the last added to the first; the first shape that contains
   * the point wins.
   */
  method FindShapeAt(ls: seq<Layer>, px: real, py: real, m: MathLib) returns (hit: Option<(nat, nat)>)
    ensures hit.Some? ==> IsTopmostHit(ls, hit.value.0, hit.value.1, px, py, m)
    ensures hit.None? <==> NoShapeHit(ls, px, py, m)
  {
    var layer := |ls| - 1;
    while layer >= 0
      invariant -1 <= layer < |ls|
      invariant forall j, k :: layer < j < |ls| && ls[j].visible && 0 <= k < |ls[j].shapes| ==> !Hits(ls[j].shapes[k], px, py, m)
    {
      if ls[layer].visible {
        var shapes := ls[layer].shapes;
        var index := |shapes| - 1;
        while index >= 0
          invariant -1 <= index < |shapes|
          invariant forall k :: index < k < |shapes| ==> !Hits(shapes[k], px, py, m)
        {
          if ContainsPoint(shapes[index].Data(), px, py, m) {
            return Some((layer, index));
          }
          index := index - 1;
        }
      }
      layer := layer - 1;
    }
    return None;
  }

  // ---------------------------------------------------------------------------------------------
  // Selection edits on a shape object

  /** What a pointer move does to the selected shape: the gesture under way and where it started. */
  datatype Gesture = Resizing(handle: Option<Handle>) | Rotating(startAngle: real) | Dragging(lastX: real, lastY: real) | Idle

  /** The selected shape after one pointer move to `(px, py)` under gesture `g`. */
  function PointerMoved(d: ShapeData, g: Gesture, px: real, py: real, m: MathLib): ShapeData {
    match g
    case Resizing(handle) => HandleDragged(d, handle, px, py, m)
    case Rotating(startAngle) => Rotated(d, startAngle, px, py, m)
    case Dragging(lastX, lastY) => Moved(d, px - lastX, py - lastY)
    case Idle => d
  }

  /**
   * Dragging through a series of pointer positions moves the shape by the displacement from
   * the first to the last position, whatever the positions in between.
   */
  lemma {:induction false} DragFollowsPointer(d: ShapeData, xs: seq<real>, ys: seq<real>, m: MathLib)
    requires |xs| == |ys| > 0
    ensures DragThrough(d, xs, ys, m) == Moved(d, xs[|xs| - 1] - xs[0], ys[|ys| - 1] - ys[0])
    decreases |xs|
  {
    if |xs| > 1 {
      var n := |xs|;
      DragFollowsPointer(d, xs[..n - 1], ys[..n - 1], m);
      MovedTwice(d, xs[n - 2] - xs[0], ys[n - 2] - ys[0], xs[n - 1] - xs[n - 2], ys[n - 1] - ys[n - 2]);
    }
  }

  /** The shape after dragging from the first pointer position through the others in order. */
  function DragThrough(d: ShapeData, xs: seq<real>, ys: seq<real>, m: MathLib): ShapeData
    requires |xs| == |ys| > 0
    decreases |xs|
  {
    var n := |xs|;
    if n == 1 then d
    else PointerMoved(DragThrough(d, xs[..n - 1], ys[..n - 1], m), Dragging(xs[n - 2], ys[n - 2]), xs[n - 1], ys[n - 1], m)
  }

  /**
   * The resizing branch of `handleSelectionMove` on the selected shape: the anchor moves on an
   * axis whose requested size exceeds 1, then the shape is resized to the requested size
   * floored at 1.
   */
  method DragHandle(shape: Shape, handle: Option<Handle>, px: real, py: real, m: MathLib)
    modifies shape
    ensures shape.Data() == HandleDragged(old(shape.Data()), handle, px, py, m)
  {
    var d := shape.Data();
    var t := HandleTable(Bounds(d), d.x, d.y, handle, px, py);
    if t.width > 1.0 {
      shape.x := t.x;
    }
    if t.height > 1.0 {
      shape.y := t.y;
    }
    shape.Resize(Max(t.width, 1.0), Max(t.height, 1.0), m);
  }

  /**
   * The rotating branch of `handleSelectionMove` on the selected shape: the rotation grows by
   * the turn of the pointer since `startAngle`; the new pointer angle is returned.
   */
  method RotateToPointer(shape: Shape, startAngle: real, px: real, py: real, m: MathLib) returns (current: real)
    modifies shape
    ensures shape.Data() == Rotated(old(shape.Data()), startAngle, px, py, m)
    ensures current == PointerAngle(old(shape.Data()), px, py, m)
  {
    var d := shape.Data();
    current := PointerAngle(d, px, py, m);
    shape.rotation := WrapDegrees(d.rotation + (current - startAngle));
  }

  /**
   * The shape update of `handleSelectionMove` for one gesture; when rotating, the new pointer
   * angle is returned as well.
   */
  method ApplyGesture(shape: Shape, g: Gesture, px: real, py: real, m: MathLib) returns (angle: real)
    modifies shape
    ensures shape.Data() == PointerMoved(old(shape.Data()), g, px, py, m)
    ensures g.Rotating? ==> angle == PointerAngle(old(shape.Data()), px, py, m)
  {
    angle := 0.0;
    match g
    case Resizing(handle) =>
      DragHandle(shape, handle, px, py, m);
    case Rotating(startAngle) =>
      angle := RotateToPointer(shape, startAngle, px, py, m);
    case Dragging(x0, y0) =>
      shape.Move(px - x0, py - y0);
    case Idle =>
  }

  // ---------------------------------------------------------------------------------------------
  // The editor

  class Editor {
    var layers: seq<Layer>
    var activeLayerIndex: int
    var canvasHistory: seq<Snapshot>
    var historyIndex: int
    var selectedTool: Tool
    var style: Style
    var selectedShape: Shape?
    var isDragging: bool
    var isResizing: bool
    var isRotating: bool
    var activeHandle: Option<Handle>
    var startAngle: real
    var lastX: real
    var lastY: real

    /** The snapshot list and its cursor as a value. */
    function History(): UndoHistory.Timeline<Snapshot>
      reads this`canvasHistory, this`historyIndex
    {
      UndoHistory.Timeline(canvasHistory, historyIndex)
    }

    /** At least one layer, and the active index names one of them. */
    ghost predicate LayersOk()
      reads this`layers, this`activeLayerIndex
    {
      |layers| > 0 && 0 <= activeLayerIndex < |layers|
    }

    /** The history is well formed and every snapshot in it was taken of a valid editor. */
    ghost predicate SnapshotsOk()
      reads this`canvasHistory, this`historyIndex
    {
      UndoHistory.ValidTimeline(History()) && forall s :: s in canvasHistory ==> SnapshotOk(s)
    }

    ghost predicate Valid()
      reads this`layers, this`activeLayerIndex, this`canvasHistory, this`historyIndex
    {
      LayersOk() && SnapshotsOk() && |canvasHistory| > 0
    }

    /**
     * `initCanvas` on the editor state: the initial globals, a white "Background" layer, and
     * the first snapshot.
     */
    constructor ()
      ensures Valid()
      ensures layers == [Layer("Background", [FillWhite], true, [])] && activeLayerIndex == 0
      ensures History() == UndoHistory.Timeline([SnapshotOf(layers, 0)], 0)
      ensures selectedTool == Brush && style == Style("#000000", 5.0, 1.0) && selectedShape == null
      ensures !isDragging && !isResizing && !isRotating && activeHandle == None
    {
      layers := [];
      activeLayerIndex := 0;
      canvasHistory, historyIndex := [], -1;
      selectedTool := Brush;
      style := Style("#000000", 5.0, 1.0);
      selectedShape := null;
      isDragging, isResizing, isRotating := false, false, false;
      activeHandle := None;
      startAngle, lastX, lastY := 0.0, 0.0, 0.0;
      new;
      CreateLayer(Some("Background"));
      SaveState();
    }

    /** `createLayer(name)`: appends a new layer and makes it active. */
    method CreateLayer(name: Option<string>)
      modifies this`layers, this`activeLayerIndex
      ensures layers == old(layers) + [NewLayer(name, |old(layers)|)]
      ensures activeLayerIndex == |layers| - 1
      ensures LayersOk()
    {
      layers := layers + [NewLayer(name, |layers|)];
      activeLayerIndex := |layers| - 1;
    }

    /**
     * `saveState`: drops the snapshots after the cursor, pushes a snapshot of the layers and the
     * active index, then evicts the oldest when over capacity or else advances the cursor.
     */
    method SaveState()
      requires LayersOk() && SnapshotsOk()
      modifies this`canvasHistory, this`historyIndex
      ensures History() == UndoHistory.Saved(old(History()), SnapshotOf(layers, activeLayerIndex))
      ensures Valid()
    {
      ghost var before := History();
      var snap := SnapshotOf(layers, activeLayerIndex);
      if historyIndex < |canvasHistory| - 1 {
        canvasHistory := canvasHistory[..historyIndex + 1];
      }
      canvasHistory := canvasHistory + [snap];
      if |canvasHistory| > UndoHistory.Capacity {
        canvasHistory := canvasHistory[1..];
      } else {
        historyIndex := historyIndex + 1;
      }
      assert History() == UndoHistory.Saved(before, snap);
    }

    /** `restoreState`: the layers and active index of the snapshot under the cursor; the selection is left alone. */
    method RestoreState()
      requires Valid()
      modifies this`layers, this`activeLayerIndex
      ensures var s := UndoHistory.Current(History());
              layers == Restored(s.layers) && activeLayerIndex == s.activeLayerIndex
      ensures Valid()
    {
      var s := canvasHistory[historyIndex];
      assert s in canvasHistory;
      layers := Restored(s.layers);
      activeLayerIndex := s.activeLayerIndex;
    }

    /** `undo`: when there is an earlier snapshot, step back to it and restore it. */
    method Undo() returns (moved: bool)
      requires Valid()
      modifies this`historyIndex, this`layers, this`activeLayerIndex
      ensures History() == UndoHistory.Undone(old(History()))
      ensures moved == UndoHistory.CanUndo(old(History()))
      ensures moved ==> var s := UndoHistory.Current(History());
                        layers == Restored(s.layers) && activeLayerIndex == s.activeLayerIndex
      ensures !moved ==> layers == old(layers) && activeLayerIndex == old(activeLayerIndex)
      ensures Valid()
    {
      if historyIndex <= 0 {
        return false;
      }
      historyIndex := historyIndex - 1;
      RestoreState();
      return true;
    }

    /** `redo`: when there is a later snapshot, step forward to it and restore it. */
    method Redo() returns (moved: bool)
      requires Valid()
      modifies this`historyIndex, this`layers, this`activeLayerIndex
      ensures History() == UndoHistory.Redone(old(History()))
      ensures moved == UndoHistory.CanRedo(old(History()))
      ensures moved ==> var s := UndoHistory.Current(History());
                        layers == Restored(s.layers) && activeLayerIndex == s.activeLayerIndex
      ensures !moved ==> layers == old(layers) && activeLayerIndex == old(activeLayerIndex)
      ensures Valid()
    {
      if historyIndex >= |canvasHistory| - 1 {
        return false;
      }
      historyIndex := historyIndex + 1;
      RestoreState();
      return true;
    }

    /** The add-layer button: a new layer with the default name, then a snapshot. */
    method AddLayer()
      requires Valid()
      modifies this`layers, this`activeLayerIndex, this`canvasHistory, this`historyIndex
      ensures layers == old(layers) + [NewLayer(None, |old(layers)|)] && activeLayerIndex == |old(layers)|
      ensures History() == UndoHistory.Saved(old(History()), SnapshotOf(layers, activeLayerIndex))
      ensures Valid()
    {
      CreateLayer(None);
      SaveState();
    }

    /** A click on a layer in the panel makes it active; no snapshot is taken. */
    method SelectLayer(index: int)
      requires Valid() && 0 <= index < |layers|
      modifies this`activeLayerIndex
      ensures activeLayerIndex == index && Valid()
    {
      activeLayerIndex := index;
    }

    /** A click on a layer's eye icon flips its visibility; no snapshot is taken. */
    method ToggleVisibility(index: int)
      requires Valid() && 0 <= index < |layers|
      modifies this`layers
      ensures layers == old(layers)[index := old(layers)[index].(visible := !old(layers)[index].visible)]
      ensures Valid()
    {
      layers := layers[index := layers[index].(visible := !layers[index].visible)];
    }

    /**
     * The clear button: once confirmed, the active layer is cleared (white for the bottom
     * layer) and loses its shapes, then a snapshot is taken.
     */
    method ClearLayer(confirmed: bool)
      requires Valid()
      modifies this`layers, this`canvasHistory, this`historyIndex
      ensures !confirmed ==> layers == old(layers) && History() == old(History())
      ensures confirmed ==>
                && layers == old(layers)[activeLayerIndex := old(layers)[activeLayerIndex].(surface := Cleared(activeLayerIndex), shapes := [])]
                && History() == UndoHistory.Saved(old(History()), SnapshotOf(layers, activeLayerIndex))
      ensures Valid()
    {
      if confirmed {
        var a := activeLayerIndex;
        layers := layers[a := layers[a].(surface := Cleared(a), shapes := [])];
        SaveState();
      }
    }

    /**
     * The delete-layer button: refused while only one layer is left; once confirmed, the
     * active layer is removed, the active index kept unless it fell off the end, and a
     * snapshot taken. Shapes above keep their now stale `layerIndex`.
     */
    method DeleteLayer(confirmed: bool) returns (outcome: Outcome)
      requires Valid()
      modifies this`layers, this`activeLayerIndex, this`canvasHistory, this`historyIndex
      ensures outcome == Refused <==> |old(layers)| <= 1
      ensures outcome == Done <==> |old(layers)| > 1 && confirmed
      ensures outcome != Done ==>
                && layers == old(layers) && activeLayerIndex == old(activeLayerIndex)
                && History() == old(History())
      ensures outcome == Done ==>
                && var a := old(activeLayerIndex);
                && layers == old(layers)[..a] + old(layers)[a + 1..]
                && activeLayerIndex == (if a <= |layers| - 1 then a else |layers| - 1)
                && History() == UndoHistory.Saved(old(History()), SnapshotOf(layers, activeLayerIndex))
      ensures Valid()
    {
      if |layers| <= 1 {
        return Refused;
      }
      if !confirmed {
        return Declined;
      }
      layers := layers[..activeLayerIndex] + layers[activeLayerIndex + 1..];
      activeLayerIndex := if activeLayerIndex <= |layers| - 1 then activeLayerIndex else |layers| - 1;
      SaveState();
      return Done;
    }

    /**
     * The copies merging down appends: one fresh shape per source shape, in order, built by
     * the constructor from the source's properties and the target index.
     */
    method CopyShapes(source: seq<Shape>, target: int) returns (copies: seq<Shape>)
      ensures fresh(copies) && CopiesOf(copies, source, target)
      ensures forall i, j :: 0 <= i < j < |copies| ==> copies[i] != copies[j]
    {
      copies := [];
      var i := 0;
      while i < |source|
        invariant 0 <= i <= |source| && |copies| == i
        invariant forall k :: 0 <= k < i ==> fresh(copies[k]) && copies[k].Data() == CopyData(source[k].Data(), target)
        invariant forall k, j :: 0 <= k < j < i ==> copies[k] != copies[j]
      {
        var d := source[i].Data();
        var copy := new Shape(d.kind, Props(Some(d.x), Some(d.y), Some(d.width), Some(d.height), Some(d.radius),
                                            Some(d.endX), Some(d.endY), Some(d.color), Some(d.lineWidth),
                                            Some(d.opacity), Some(d.rotation), Some(target)));
        copies := copies + [copy];
        i := i + 1;
      }
      assert CopiesOf(copies, source, target);
    }

    /**
     * The layer list `mergeDown` leaves: the target below gets the source's canvas drawn over
     * it when the source is visible and copies of the source's shapes after its own, and the
     * source layer is removed.
     */
    method MergedLayers(ls: seq<Layer>, a: int) returns (r: seq<Layer>)
      requires 0 < a < |ls|
      ensures MergedDown(ls, r, a) && MergedCopies(ls, r, a)
      ensures fresh(r[a - 1].shapes[|ls[a - 1].shapes|..])
    {
      var source, target := ls[a], ls[a - 1];
      var surface := if source.visible then target.surface + [DrawImage(source.surface)] else target.surface;
      var copies := CopyShapes(source.shapes, a - 1);
      var merged := target.(surface := surface, shapes := target.shapes + copies);
      assert merged.shapes[|target.shapes|..] == copies;
      r := ls[..a - 1] + [merged] + ls[a + 1..];
      assert r[a - 1] == merged;
      assert r[..a - 1] == ls[..a - 1] && r[a..] == ls[a + 1..];
    }

    /**
     * The merge button: refused on the bottom layer or with a single layer; once confirmed,
     * the active layer is merged into the layer below, which becomes active, and a snapshot
     * is taken. Shapes above keep their now stale `layerIndex`.
     */
    method MergeDown(confirmed: bool) returns (outcome: Outcome)
      requires Valid()
      modifies this`layers, this`activeLayerIndex, this`canvasHistory, this`historyIndex
      ensures outcome == Refused <==> old(activeLayerIndex) == 0 || |old(layers)| <= 1
      ensures outcome == Done <==> outcome != Refused && confirmed
      ensures outcome != Done ==>
                && layers == old(layers) && activeLayerIndex == old(activeLayerIndex)
                && History() == old(History())
      ensures outcome == Done ==>
                && var a := old(activeLayerIndex);
                && activeLayerIndex == a - 1
                && MergedDown(old(layers), layers, a) && MergedCopies(old(layers), layers, a)
                && fresh(layers[a - 1].shapes[|old(layers)[a - 1].shapes|..])
                && History() == UndoHistory.Saved(old(History()), SnapshotOf(layers, activeLayerIndex))
      ensures Valid()
    {
      if activeLayerIndex == 0 || |layers| <= 1 {
        return Refused;
      }
      if !confirmed {
        return Declined;
      }
      var a := activeLayerIndex;
      layers := MergedLayers(layers, a);
      activeLayerIndex := a - 1;
      SaveState();
      return Done;
    }

    /** The selected shape exists and sits in the layer its `layerIndex` names. */
    predicate SelectionInItsLayer()
      reads this, selectedShape
    {
      selectedShape != null && 0 <= selectedShape.layerIndex < |layers|
      && selectedShape in layers[selectedShape.layerIndex].shapes
    }

    /**
     * The delete-shape button: when the selected shape is found, by identity, in the layer its
     * `layerIndex` names, it is removed there, that layer is redrawn, the selection cleared and
     * a snapshot taken. Otherwise nothing happens.
     */
    method DeleteSelectedShape() returns (deleted: bool)
      requires Valid()
      modifies this`layers, this`selectedShape, this`canvasHistory, this`historyIndex
      ensures deleted <==> old(SelectionInItsLayer())
      ensures !deleted ==>
                && layers == old(layers) && selectedShape == old(selectedShape)
                && History() == old(History())
      ensures deleted ==>
                && layers == old(Redrawn(WithoutShape(layers, selectedShape.layerIndex, selectedShape),
                                         selectedShape.layerIndex))
                && selectedShape == null
                && History() == UndoHistory.Saved(old(History()), SnapshotOf(layers, activeLayerIndex))
      ensures Valid()
    {
      if selectedShape == null {
        return false;
      }
      var li := selectedShape.layerIndex;
      if !(0 <= li < |layers|) || selectedShape !in layers[li].shapes {
        return false;
      }
      ghost var expected := Redrawn(WithoutShape(layers, li, selectedShape), li);
      var redrawn := RedrawLayerWithShapes(WithoutShape(layers, li, selectedShape), li);
      assert redrawn == expected;
      layers := redrawn;
      selectedShape := null;
      SaveState();
      assert layers == expected;
      return true;
    }

    /**
     * `createShape`: unless the active layer is hidden, builds the shape for the drag with the
     * current style, appends it to the active layer, draws it there and selects it.
     */
    method CreateShape(kind: ShapeKind, startX: real, startY: real, endX: real, endY: real, m: MathLib)
      requires Valid()
      modifies this`layers, this`selectedShape
      ensures !old(layers)[activeLayerIndex].visible ==> layers == old(layers) && selectedShape == old(selectedShape)
      ensures old(layers)[activeLayerIndex].visible ==>
                && selectedShape != null && fresh(selectedShape)
                && selectedShape.Data() == CreatedShape(kind, startX, startY, endX, endY, style, activeLayerIndex, m)
                && var l := old(layers)[activeLayerIndex];
                layers == old(layers)[activeLayerIndex := l.(shapes := l.shapes + [selectedShape],
                                                             surface := l.surface + [DrawShape(selectedShape.Data())])]
      ensures Valid()
    {
      var l := layers[activeLayerIndex];
      if !l.visible {
        return;
      }
      var shape := new Shape(kind, CreationProps(kind, startX, startY, endX, endY, style, activeLayerIndex, m));
      layers := layers[activeLayerIndex := l.(shapes := l.shapes + [shape], surface := l.surface + [DrawShape(shape.Data())])];
      selectedShape := shape;
    }

    /** Picking a tool; any tool other than the selection tool drops the selection. */
    method SelectTool(tool: Tool)
      modifies this`selectedTool, this`selectedShape
      ensures selectedTool == tool
      ensures selectedShape == (if tool == Select then old(selectedShape) else null)
    {
      selectedTool := tool;
      if tool != Select && selectedShape != null {
        selectedShape := null;
      }
    }

    /**
     * A press with the selection tool: `startDrawing` records the press point as the last
     * pointer position, from which a drag is measured, and calls `handleSelectionClick(px, py)`.
     * With a shape selected, its rotation handle is tested first, then its resize handles in
     * order; a hit starts rotating or resizing. Otherwise the topmost shape under the point is
     * selected and dragging starts, or the selection is dropped when there is none.
     */
    method HandleSelectionClick(px: real, py: real, m: MathLib) returns (click: Click)
      requires Valid()
      modifies this`lastX, this`lastY
      modifies this`isRotating, this`startAngle, this`isResizing, this`activeHandle, this`selectedShape, this`isDragging
      ensures lastX == px && lastY == py
      ensures var sel := old(selectedShape);
              sel != null && NearHandle(px, py, RotationHandlePosition(sel.Data(), m)) <==> click == OnRotationHandle
      ensures click == OnRotationHandle ==>
                && old(selectedShape) != null && isRotating
                && startAngle == PointerAngle(old(selectedShape).Data(), px, py, m)
                && selectedShape == old(selectedShape) && isResizing == old(isResizing)
                && activeHandle == old(activeHandle) && isDragging == old(isDragging)
      ensures click.OnHandle? ==>
                && old(selectedShape) != null
                && !NearHandle(px, py, RotationHandlePosition(old(selectedShape).Data(), m))
                && IsFirstHandleHit(old(selectedShape).Data(), px, py, m, click.handle)
                && isResizing && activeHandle == Some(click.handle)
                && selectedShape == old(selectedShape) && isRotating == old(isRotating)
                && startAngle == old(startAngle) && isDragging == old(isDragging)
      ensures click.OnShape? || click.OnNothing? ==>
                && (old(selectedShape) != null ==> NoHandleHit(old(selectedShape).Data(), px, py, m))
                && isRotating == old(isRotating) && startAngle == old(startAngle)
                && isResizing == old(isResizing) && activeHandle == old(activeHandle)
      ensures click.OnShape? ==>
                && IsTopmostHit(layers, click.layer, click.index, px, py, m)
                && selectedShape == layers[click.layer].shapes[click.index] && isDragging
      ensures click.OnNothing? ==> NoShapeHit(layers, px, py, m) && selectedShape == null && isDragging == old(isDragging)
    {
      lastX, lastY := px, py;
      if selectedShape != null {
        var d := selectedShape.Data();
        if NearHandle(px, py, RotationHandlePosition(d, m)) {
          isRotating := true;
          startAngle := PointerAngle(d, px, py, m);
          return OnRotationHandle;
        }
        var h := HitHandle(d, px, py, m);
        if h.Some? {
          isResizing := true;
          activeHandle := h;
          return OnHandle(h.value);
        }
      }
      click := SelectAt(px, py, m);
    }

    /**
     * The last part of `handleSelectionClick`: select the topmost shape under the point and
     * start dragging it, or drop the selection when there is none.
     */
    method SelectAt(px: real, py: real, m: MathLib) returns (click: Click)
      modifies this`selectedShape, this`isDragging
      ensures click.OnShape? || click.OnNothing?
      ensures click.OnShape? ==>
                && IsTopmostHit(layers, click.layer, click.index, px, py, m)
                && selectedShape == layers[click.layer].shapes[click.index] && isDragging
      ensures click.OnNothing? ==> NoShapeHit(layers, px, py, m) && selectedShape == null && isDragging == old(isDragging)
    {
      var hit := FindShapeAt(layers, px, py, m);
      if hit.Some? {
        selectedShape := layers[hit.value.0].shapes[hit.value.1];
        isDragging := true;
        assert IsTopmostHit(layers, hit.value.0, hit.value.1, px, py, m);
        return OnShape(hit.value.0, hit.value.1);
      }
      selectedShape := null;
      assert NoShapeHit(layers, px, py, m);
      return OnNothing;
    }

    /** The gesture the selection flags describe, resizing first, then rotating, then dragging. */
    function CurrentGesture(): Gesture
      reads this
    {
      if isResizing then Resizing(activeHandle)
      else if isRotating then Rotating(startAngle)
      else if isDragging then Dragging(lastX, lastY)
      else Idle
    }

    /**
     * `handleSelectionMove(px, py)`. With a shape selected and a gesture under way, the shape is
     * updated by the gesture and its layer (by its own `layerIndex`) redrawn; rotating also
     * records the new pointer angle. The last pointer position is recorded in every case.
     */
    method HandleSelectionMove(px: real, py: real, m: MathLib)
      requires Valid()
      modifies this`layers, this`startAngle, this`lastX, this`lastY, selectedShape
      ensures lastX == px && lastY == py
      ensures selectedShape != null ==>
                selectedShape.Data() == PointerMoved(old(selectedShape.Data()), old(CurrentGesture()), px, py, m)
      ensures layers == if selectedShape != null && !old(CurrentGesture()).Idle?
                        then Redrawn(old(layers), selectedShape.layerIndex) else old(layers)
      ensures startAngle == if selectedShape != null && old(CurrentGesture()).Rotating?
                            then PointerAngle(old(selectedShape.Data()), px, py, m) else old(startAngle)
      ensures Valid()
    {
      var shape := selectedShape;
      var gesture := CurrentGesture();
      lastX, lastY := px, py;
      if shape != null {
        var angle := ApplyGesture(shape, gesture, px, py, m);
        ghost var moved := shape.Data();
        if gesture.Rotating? {
          startAngle := angle;
        }
        if !gesture.Idle? {
          layers := RedrawLayerWithShapes(layers, shape.layerIndex);
        }
        assert shape.Data() == moved;
      }
    }

    /** `handleSelectionEnd`: every selection flag is reset and a snapshot taken. */
    method HandleSelectionEnd()
      requires Valid()
      modifies this`isDragging, this`isResizing, this`isRotating, this`activeHandle, this`canvasHistory, this`historyIndex
      ensures !isDragging && !isResizing && !isRotating && activeHandle == None
      ensures History() == UndoHistory.Saved(old(History()), SnapshotOf(layers, activeLayerIndex))
      ensures Valid()
    {
      isDragging, isResizing, isRotating := false, false, false;
      activeHandle := None;
      SaveState();
    }
  }
}
