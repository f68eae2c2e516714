/** The editor session of js/photolite.js: the layer stack, the active layer
    index, the bounded undo history and the stroke state, with the operations the
    toolbar, the layer panel, the pointer and the keyboard call. */
module Editor {
  import opened JsArray
  import opened JsNumber
  import opened Layers
  import opened Filters
  import opened History

  datatype Option<T> = None | Some(value: T)

  /** How an operation ends: normally, or with the TypeError JavaScript throws
      when it reads or writes a property of `undefined` (a layer index that names
      no layer). Whatever the operation changed before the throw stays changed. */
  datatype Outcome = Completed | TypeError

  /** One stroke segment handed to the canvas: the tool, the line width and the
      two end points. */
  datatype Segment = Segment(tool: string, lineWidth: int, fromX: real, fromY: real, toX: real, toY: real)

  /** Math.max on integers. */
  function Max(a: int, b: int): (m: int)
    ensures m >= a && m >= b && (m == a || m == b)
  {
    if a < b then b else a
  }

  /** The name addLayer gives a new layer. */
  function LayerName(nameOverride: Option<string>, count: nat): (name: string)
    ensures nameOverride.Some? && nameOverride.value != "" ==> name == nameOverride.value
    ensures nameOverride.None? || nameOverride.value == "" ==> |name| > 6 && name[..6] == "Layer "
  {
    if nameOverride.Some? && nameOverride.value != "" then nameOverride.value
    else "Layer " + NumberToString(count + 1)
  }

  /** A new layer is named by the override when that is a non-empty string, and
      otherwise "Layer " followed by the decimal numeral of the stack length plus
      one. */
  lemma LayerNameChoice(nameOverride: Option<string>, count: nat)
    ensures var name := LayerName(nameOverride, count);
            && (nameOverride.Some? && nameOverride.value != "" ==> name == nameOverride.value)
            && (nameOverride.None? || nameOverride.value == "" ==>
                  && |name| > 6 && name[..6] == "Layer "
                  && (forall i :: 6 <= i < |name| ==> IsDigit(name[i]))
                  && DecimalValue(name[6..]) == count + 1)
  {
    if nameOverride.None? || nameOverride.value == "" {
      var digits := NumberToString(count + 1);
      NumberToStringValue(count + 1);
      assert LayerName(nameOverride, count)[6..] == digits;
    }
  }

  /** The brush size after the '[' or ']' key: '[' takes 5 off a size above 1,
      ']' adds 5 to a size below 100, any other key leaves it. From the initial
      size 20 only the multiples of 5 from 0 to 100 are reached. */
  function SteppedBrushSize(key: string, size: int): (r: int)
    ensures 0 <= size <= 100 && size % 5 == 0 ==> 0 <= r <= 100 && r % 5 == 0
    ensures key != "[" && key != "]" ==> r == size
    ensures key == "[" && size > 1 ==> r == size - 5
    ensures key == "[" && size <= 1 ==> r == size
    ensures key == "]" && size < 100 ==> r == size + 5
    ensures key == "]" && size >= 100 ==> r == size
  {
    if key == "[" && size > 1 then size - 5
    else if key == "]" && size < 100 then size + 5
    else size
  }

  /** The layers render draws, bottom to top: the visible ones, in stack order. */
  function Render(layers: seq<Layer>): (drawn: seq<Layer>)
    ensures |drawn| <= |layers|
    ensures forall l :: l in drawn <==> l in layers && l.visible
  {
    if layers == [] then []
    else (if layers[0].visible then [layers[0]] else []) + Render(layers[1..])
  }

  /** Rendering one layer draws it exactly when it is visible. */
  lemma RenderOne(l: Layer)
    ensures Render([l]) == if l.visible then [l] else []
  {
    assert [l][1..] == [];
  }

  /** Rendering a stack split in two draws the lower part first, then the upper
      part: render keeps the bottom-to-top order of the stack. */
  lemma {:induction false} RenderAppend(a: seq<Layer>, b: seq<Layer>)
    ensures Render(a + b) == Render(a) + Render(b)
    decreases |a|
  {
    if a == [] {
      assert a + b == b;
    } else {
      assert (a + b)[0] == a[0];
      assert (a + b)[1..] == a[1..] + b;
      RenderAppend(a[1..], b);
    }
  }

  /** The pixels applyFilter leaves on a layer: the result of the filter loop,
      with the blur applied on top of it for "blur" (for which the loop changes
      nothing). */
  function FilterResult(kind: string, blur: Pixels -> Pixels, px: Pixels): (r: Pixels)
    ensures kind != "invert" && kind != "grayscale" && kind != "blur" ==> r == px
  {
    if kind == "blur" then blur(px) else Filtered(kind, px)
  }

  class PhotoLite {
    var layers: seq<Layer>
    var activeLayerIndex: int
    var history: seq<HistoryEntry>
    var currentTool: string
    var isDrawing: bool
    var brushSize: int
    var lastX: real
    var lastY: real

    /** `self.layers[self.activeLayerIndex]` names a layer. */
    predicate HasActiveLayer()
      reads this
    {
      0 <= activeLayerIndex < |layers|
    }

    /** The weaker index bound addLayer and deleteLayer keep: the index may be one
        past the top, as it is right after initialisation. */
    ghost predicate IndexInRange()
      reads this
    {
      0 <= activeLayerIndex <= |layers|
    }

    /** The layer stack is never empty, and neither is the stack of any history
        entry undo may install: deleteLayer refuses to remove the last layer, and
        mergeDown only removes a layer when there is one below it. */
    ghost predicate NonEmpty()
      reads this
    {
      |layers| >= 1 && forall e :: e in history ==> |e.layers| >= 1
    }

    /** The state undo leaves, given the history, layers and index before it. */
    ghost predicate UndoneFrom(h: seq<HistoryEntry>, ls: seq<Layer>, i: int)
      reads this
    {
      if h == [] then layers == ls && activeLayerIndex == i && history == h
      else
        var last := h[|h| - 1];
        && history == h[..|h| - 1]
        && activeLayerIndex == last.activeLayerIndex
        && layers == Restore(last.layers)
    }

    /** The session as init leaves it: one opaque white "Background" layer, whose
        blank predecessor is the one history entry, and an active index of 1, one
        past the only layer, so that no layer is active. */
    constructor ()
      ensures layers == [NewLayer("Background").(pixels := Filled(255))]
      ensures activeLayerIndex == 1 && !HasActiveLayer()
      ensures history == [Capture([NewLayer("Background")], 1)]
      ensures currentTool == "brush" && !isDrawing && brushSize == 20
      ensures lastX == 0.0 && lastY == 0.0
      ensures NonEmpty()
    {
      layers := [];
      activeLayerIndex := 0;
      history := [];
      currentTool := "brush";
      isDrawing := false;
      brushSize := 20;
      lastX := 0.0;
      lastY := 0.0;
      new;
      AddLayer(Some("Background"));
      assert layers == [NewLayer("Background")];
      assert history == [Capture(layers, 1)];
      var bg := layers[0];
      layers := layers[0 := bg.(pixels := Filled(255))];
    }

    /** Records the layer stack and the active index as the newest history entry,
        dropping the oldest entry when the history is full. */
    method SaveState()
      modifies this`history
      ensures history == Push(old(history), Capture(layers, activeLayerIndex))
      ensures |old(history)| <= MaxHistory ==> |history| <= MaxHistory
      ensures old(NonEmpty()) ==> NonEmpty()
    {
      if |history| >= MaxHistory {
        history := history[1..];
      }
      var state := Capture(layers, activeLayerIndex);
      history := history + [state];
    }

    /** Inserts a new blank layer at the active index plus one (clamped by the
        splice to the stack length), makes the index point one higher, and then
        records the new state. */
    method AddLayer(nameOverride: Option<string>)
      modifies this`layers, this`activeLayerIndex, this`history
      ensures var k := ActualStart(old(activeLayerIndex) + 1, |old(layers)|);
              && |layers| == |old(layers)| + 1
              && layers[k] == NewLayer(LayerName(nameOverride, |old(layers)|))
              && layers[..k] == old(layers)[..k]
              && layers[k + 1..] == old(layers)[k..]
      ensures activeLayerIndex == old(activeLayerIndex) + 1
      ensures history == Push(old(history), Capture(layers, activeLayerIndex))
      ensures old(IndexInRange()) ==> IndexInRange()
      ensures old(NonEmpty()) ==> NonEmpty()
    {
      var name := LayerName(nameOverride, |layers|);
      var newLayer := NewLayer(name);
      SpliceInsert(layers, activeLayerIndex + 1, newLayer);
      layers := Splice(layers, activeLayerIndex + 1, 0, [newLayer]);
      activeLayerIndex := activeLayerIndex + 1;
      SaveState();
    }

    /** With more than one layer, removes the layer the splice start picks for the
        active index (nothing when the index is one past the top), lowers the index
        by one but not below 0, and records the new state. */
    method DeleteLayer()
      modifies this`layers, this`activeLayerIndex, this`history
      ensures |old(layers)| <= 1 ==>
                layers == old(layers) && activeLayerIndex == old(activeLayerIndex) && history == old(history)
      ensures |old(layers)| > 1 ==>
                var k := ActualStart(old(activeLayerIndex), |old(layers)|);
                && (k < |old(layers)| ==> layers == old(layers)[..k] + old(layers)[k + 1..])
                && (k == |old(layers)| ==> layers == old(layers))
                && activeLayerIndex == Max(0, old(activeLayerIndex) - 1)
                && history == Push(old(history), Capture(layers, activeLayerIndex))
      ensures old(IndexInRange()) ==> IndexInRange()
      ensures old(NonEmpty()) ==> NonEmpty()
    {
      if |layers| <= 1 {
        return;
      }
      SpliceRemove(layers, activeLayerIndex);
      layers := Splice(layers, activeLayerIndex, 1, []);
      activeLayerIndex := Max(0, activeLayerIndex - 1);
      SaveState();
    }

    method SetActiveLayer(index: int)
      modifies this`activeLayerIndex
      ensures activeLayerIndex == index
      ensures old(NonEmpty()) ==> NonEmpty()
    {
      activeLayerIndex := index;
    }

    /** Flips the visibility of layer `index`; there is no such layer exactly when
        it throws. Nothing is recorded in the history. */
    method ToggleVisibility(index: int) returns (outcome: Outcome)
      modifies this`layers
      ensures outcome == Completed <==> 0 <= index < |old(layers)|
      ensures outcome == Completed ==>
                layers == old(layers)[index := old(layers)[index].(visible := !old(layers)[index].visible)]
      ensures outcome == TypeError ==> layers == old(layers)
      ensures old(NonEmpty()) ==> NonEmpty()
    {
      if !(0 <= index < |layers|) {
        return TypeError;
      }
      var layer := layers[index];
      layers := layers[index := layer.(visible := !layer.visible)];
      return Completed;
    }

    /** Draws the active layer onto the one below it and removes it. At index 0
        nothing happens. Otherwise the state is recorded first; with no active
        layer (or no layer below it) the operation then throws. Else the lower
        layer's pixels become the composite of the two (its name, visibility, mode
        and opacity stay), the inner deleteLayer removes the top layer and records
        a second entry, and the index is lowered twice in all. */
    method MergeDown(composite: (Pixels, Pixels, real, string) -> Pixels) returns (outcome: Outcome)
      modifies this`layers, this`activeLayerIndex, this`history
      ensures old(activeLayerIndex) == 0 ==>
                && outcome == Completed
                && layers == old(layers) && activeLayerIndex == 0 && history == old(history)
      ensures old(activeLayerIndex) != 0 && !old(HasActiveLayer()) ==>
                && outcome == TypeError
                && layers == old(layers) && activeLayerIndex == old(activeLayerIndex)
                && history == Push(old(history), Capture(old(layers), old(activeLayerIndex)))
      ensures old(activeLayerIndex) != 0 && old(HasActiveLayer()) ==>
                var i := old(activeLayerIndex);
                var top, bottom := old(layers)[i], old(layers)[i - 1];
                var merged := bottom.(pixels := composite(bottom.pixels, top.pixels, top.opacity, top.mode));
                && outcome == Completed
                && |layers| == |old(layers)| - 1
                && layers == old(layers)[..i - 1] + [merged] + old(layers)[i + 1..]
                && activeLayerIndex == i - 2
                && history == Push(Push(old(history), Capture(old(layers), i)), Capture(layers, i - 1))
      ensures old(NonEmpty()) ==> NonEmpty()
    {
      if activeLayerIndex == 0 {
        return Completed;
      }
      SaveState();
      if !HasActiveLayer() {
        return TypeError;
      }
      var i := activeLayerIndex;
      var top := layers[i];
      var bottom := layers[i - 1];
      var merged := bottom.(pixels := composite(bottom.pixels, top.pixels, top.opacity, top.mode));
      ghost var saved := history;
      ghost var before := layers;
      layers := layers[i - 1 := merged];
      ghost var withMerged := layers;
      assert ActualStart(i, |withMerged|) == i;
      DeleteLayer();
      assert layers == withMerged[..i] + withMerged[i + 1..];
      assert withMerged[..i] == before[..i - 1] + [merged];
      assert history == Push(saved, Capture(layers, i - 1));
      activeLayerIndex := activeLayerIndex - 1;
      return Completed;
    }

    /** Sets the blend mode of the active layer; throws when there is none. */
    method SetBlendMode(mode: string) returns (outcome: Outcome)
      modifies this`layers
      ensures outcome == Completed <==> old(HasActiveLayer())
      ensures outcome == Completed ==>
                layers == old(layers)[activeLayerIndex := old(layers)[activeLayerIndex].(mode := mode)]
      ensures outcome == TypeError ==> layers == old(layers)
      ensures old(NonEmpty()) ==> NonEmpty()
    {
      if !HasActiveLayer() {
        return TypeError;
      }
      var layer := layers[activeLayerIndex];
      layers := layers[activeLayerIndex := layer.(mode := mode)];
      return Completed;
    }

    /** Records the state, then clears the active layer to transparent black;
        throws (after recording) when there is no active layer. */
    method ClearLayer() returns (outcome: Outcome)
      modifies this`layers, this`history
      ensures history == Push(old(history), Capture(old(layers), activeLayerIndex))
      ensures outcome == Completed <==> old(HasActiveLayer())
      ensures outcome == Completed ==>
                layers == old(layers)[activeLayerIndex := old(layers)[activeLayerIndex].(pixels := Filled(0))]
      ensures outcome == TypeError ==> layers == old(layers)
      ensures old(NonEmpty()) ==> NonEmpty()
    {
      SaveState();
      if !HasActiveLayer() {
        return TypeError;
      }
      var layer := layers[activeLayerIndex];
      layers := layers[activeLayerIndex := layer.(pixels := Filled(0))];
      return Completed;
    }

    /** Records the state, then runs the filter loop over the active layer's
        pixels and, for "blur", applies the blur on top; any other filter name
        leaves the pixels as they are. Throws (after recording) when there is no
        active layer. */
    method ApplyFilter(kind: string, blur: Pixels -> Pixels) returns (outcome: Outcome)
      modifies this`layers, this`history
      ensures history == Push(old(history), Capture(old(layers), activeLayerIndex))
      ensures outcome == Completed <==> old(HasActiveLayer())
      ensures old(HasActiveLayer()) ==>
                var layer := old(layers)[activeLayerIndex];
                layers == old(layers)[activeLayerIndex := layer.(pixels := FilterResult(kind, blur, layer.pixels))]
      ensures !old(HasActiveLayer()) ==> layers == old(layers)
      ensures old(NonEmpty()) ==> NonEmpty()
    {
      SaveState();
      if !HasActiveLayer() {
        return TypeError;
      }
      var layer := layers[activeLayerIndex];
      var data := FilterImageData(kind, layer.pixels);
      var px: Pixels := data;
      if kind == "blur" {
        px := blur(px);
      }
      layers := layers[activeLayerIndex := layer.(pixels := px)];
      return Completed;
    }

    /** Pops the newest history entry and rebuilds the layer stack and the active
        index from it; with an empty history nothing changes. */
    method Undo()
      modifies this`layers, this`activeLayerIndex, this`history
      ensures UndoneFrom(old(history), old(layers), old(activeLayerIndex))
      ensures old(NonEmpty()) ==> NonEmpty()
    {
      if |history| == 0 {
        return;
      }
      var lastState := history[|history| - 1];
      history := history[..|history| - 1];
      layers := [];
      activeLayerIndex := lastState.activeLayerIndex;
      var k := 0;
      while k < |lastState.layers|
        invariant 0 <= k <= |lastState.layers|
        invariant history == old(history)[..|old(history)| - 1]
        invariant activeLayerIndex == lastState.activeLayerIndex
        invariant |layers| == k
        invariant forall j :: 0 <= j < k ==> layers[j] == Revive(lastState.layers[j])
      {
        var lData := lastState.layers[k];
        var newLayer := NewLayer(lData.name);
        newLayer := newLayer.(visible := lData.visible, mode := lData.mode, opacity := lData.opacity);
        // the decoded snapshot image, once loaded, is drawn onto the blank canvas
        newLayer := newLayer.(pixels := lData.data);
        layers := layers + [newLayer];
        k := k + 1;
      }
      assert layers == Restore(lastState.layers);
    }

    /** Pointer down: records the state once for the whole stroke, starts the
        stroke at the pointer and draws its first segment (a dot). */
    method StartDraw(x: real, y: real, stroke: (Pixels, Segment) -> Pixels)
      modifies this`history, this`isDrawing, this`lastX, this`lastY, this`layers
      ensures history == Push(old(history), Capture(old(layers), activeLayerIndex))
      ensures isDrawing && lastX == x && lastY == y
      ensures old(HasActiveLayer()) ==>
                var layer := old(layers)[activeLayerIndex];
                layers == old(layers)[activeLayerIndex :=
                            layer.(pixels := stroke(layer.pixels, Segment(currentTool, brushSize, x, y, x, y)))]
      ensures !old(HasActiveLayer()) ==> layers == old(layers)
      ensures old(NonEmpty()) ==> NonEmpty()
    {
      SaveState();
      isDrawing := true;
      lastX, lastY := x, y;
      Draw(x, y, stroke);
    }

    /** Pointer move: while a stroke is on and there is an active layer, draws the
        segment from the last point to the pointer onto it and moves the last
        point there; otherwise does nothing at all. */
    method Draw(x: real, y: real, stroke: (Pixels, Segment) -> Pixels)
      modifies this`layers, this`lastX, this`lastY
      ensures !(old(isDrawing) && old(HasActiveLayer())) ==>
                layers == old(layers) && lastX == old(lastX) && lastY == old(lastY)
      ensures old(isDrawing) && old(HasActiveLayer()) ==>
                var layer := old(layers)[activeLayerIndex];
                var segment := Segment(currentTool, brushSize, old(lastX), old(lastY), x, y);
                && layers == old(layers)[activeLayerIndex := layer.(pixels := stroke(layer.pixels, segment))]
                && lastX == x && lastY == y
      ensures old(NonEmpty()) ==> NonEmpty()
    {
      if !isDrawing {
        return;
      }
      if !HasActiveLayer() {
        return;
      }
      var layer := layers[activeLayerIndex];
      var segment := Segment(currentTool, brushSize, lastX, lastY, x, y);
      layers := layers[activeLayerIndex := layer.(pixels := stroke(layer.pixels, segment))];
      lastX := x;
      lastY := y;
    }

    /** Pointer up or leaving the canvas: the stroke ends. */
    method StopDraw()
      modifies this`isDrawing
      ensures !isDrawing
      ensures old(NonEmpty()) ==> NonEmpty()
    {
      isDrawing := false;
    }

    method SetTool(tool: string)
      modifies this`currentTool
      ensures currentTool == tool
      ensures old(NonEmpty()) ==> NonEmpty()
    {
      currentTool := tool;
    }

    method SetBrushSize(size: int)
      modifies this`brushSize
      ensures brushSize == size
      ensures old(NonEmpty()) ==> NonEmpty()
    {
      brushSize := size;
    }

    /** The keyboard shortcuts: Ctrl+Z undoes, 'b' and 'e' pick the brush and the
        eraser, '[' and ']' step the brush size. */
    method KeyDown(key: string, ctrlKey: bool)
      modifies this`layers, this`activeLayerIndex, this`history, this`currentTool, this`brushSize
      ensures ctrlKey && key == "z" ==> UndoneFrom(old(history), old(layers), old(activeLayerIndex))
      ensures !(ctrlKey && key == "z") ==>
                layers == old(layers) && activeLayerIndex == old(activeLayerIndex) && history == old(history)
      ensures currentTool == if key == "b" then "brush" else if key == "e" then "eraser" else old(currentTool)
      ensures brushSize == SteppedBrushSize(key, old(brushSize))
      ensures old(NonEmpty()) ==> NonEmpty()
    {
      if ctrlKey && key == "z" {
        Undo();
      }
      if key == "b" {
        SetTool("brush");
      }
      if key == "e" {
        SetTool("eraser");
      }
      if key == "[" && brushSize > 1 {
        SetBrushSize(brushSize - 5);
      }
      if key == "]" && brushSize < 100 {
        SetBrushSize(brushSize + 5);
      }
    }
  }

  /** saveState immediately followed by undo gives back the layer stack and the
      active index; the history is as before, except that a full history has lost
      its oldest entry. */
  method SaveStateThenUndo(app: PhotoLite)
    modifies app
    ensures app.layers == old(app.layers) && app.activeLayerIndex == old(app.activeLayerIndex)
    ensures app.history == if |old(app.history)| < MaxHistory then old(app.history) else old(app.history)[1..]
  {
    ghost var layers0, index0 := app.layers, app.activeLayerIndex;
    app.SaveState();
    app.Undo();
    RestoreCapture(layers0, index0);
  }

  /** A fresh session, a new layer named "Sketch", and a stroke: the new layer is
      appended above the background, the index names no layer, so the stroke
      paints nothing, yet it still records a history entry. */
  method InitAddSketchThenStroke(x: real, y: real, stroke: (Pixels, Segment) -> Pixels) returns (app: PhotoLite)
    ensures app.layers == [NewLayer("Background").(pixels := Filled(255)), NewLayer("Sketch")]
    ensures app.activeLayerIndex == 2 && !app.HasActiveLayer()
    ensures |app.history| == 3 && app.isDrawing
  {
    app := new PhotoLite();
    ghost var bg := app.layers[0];
    app.AddLayer(Some("Sketch"));
    assert app.layers == [bg, NewLayer("Sketch")];
    app.StartDraw(x, y, stroke);
  }
}
