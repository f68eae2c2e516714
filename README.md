# PhotoLite layer stack, history and filters in Dafny

PhotoLite is an in-browser raster image editor. This project models its core:
- the editor session of `js/photolite.js`: the layer stack, the active layer index, the undo history of at most ten snapshots, the stroke state and the operations that change them;
- the `Layer` record of `js/layer.js`.

Modules, one per concern:

- `JsArray` (jsarray.dfy): the part of `Array.prototype.splice` the editor relies on (ECMA-262, 2023 edition, section 23.1.3.31). It covers the negative start counting from the end, the clamping of the start and of the delete count, and the resulting array. It also proves what one insertion and one removal do.
- `JsNumber` (jsnumber.dfy): the decimal numeral JavaScript produces for `'Layer ' + n`, with a proof that reading it back gives `n`.
- `Layers` (layers.dfy): the `Layer` record. Pixels are RGBA bytes of the fixed 800 × 600 canvas.
- `Filters` (filters.dfy): the invert and grayscale filters.
  - They are specified as functions on the byte buffer.
  - The in-place loop of `applyFilter` is proved to compute them.
  - Grayscale stores through `Uint8ClampedArray`, whose conversion is modelled by ToUint8Clamp (ECMA-262, section 7.1.12). The stored value is shown to be exactly `(r+g+b+1) div 3`.
  - Invert is proved to be its own inverse, and grayscale to be idempotent.
- `History` (history.dfy): snapshots, the bounded push of `saveState`, the rebuilding of layers in `undo`, and the facts that restoring a capture gives back the layers and that the history keeps the newest ten entries.
- `Editor` (editor.dfy): the `PhotoLite` class. Its fields are the session state and its methods are the operations, each specified by its whole new state. Together with the constructor, `init` becomes one step.

How the model treats the program:

- **Foreign pixel work.** Canvas drawing the model cannot see is passed in as function parameters:
  - the composite of `mergeDown`;
  - the `blur(5px)` canvas filter;
  - the rasterisation of one stroke segment.
- **Errors.** An operation that reads a property of `undefined` (an active index that names no layer) returns `TypeError` instead of `Completed`. Whatever it changed before that point stays changed, as in the program.
- **Index quirks, as written.** The active index is not kept inside the stack:
  - `init` leaves index 1 over a single layer;
  - `mergeDown` lowers the index twice.
  
  The model proves the weaker bound `0 <= activeLayerIndex <= |layers|` that `addLayer` and `deleteLayer` do keep.
- **The stack is never empty.** The class predicate `NonEmpty` says that the layer stack, and the stack of every history entry undo may install, has at least one layer. The constructor establishes it and every method preserves it.

Where the editor's documented intent, including its own comments, differs from what its code does, the model follows the code:
- **When `addLayer` and `deleteLayer` record history.** They record it after the change, not before.
- **Where `addLayer` leaves the index.** The index becomes the old index plus one even when the splice start is clamped.
- **How `mergeDown` records history and moves the index.** It records two entries, because the inner `deleteLayer` records one despite its argument. It ends two below the merged layer's old index.
- **What grayscale stores.** It stores the rounded mean, not the exact one.
- **Whether operations raise.** An operation on a missing active layer raises a TypeError rather than doing nothing.
- **When `draw` updates the last point.** It updates `lastX`/`lastY` only when it draws, so a pointer move with no active layer leaves them as they were.

## Model

| member | source | states |
|---|---|---|
| `JsArray.ActualStart` | js/photolite.js:65-74 | A splice start is clamped into [0, len]. A negative start counts back from the end. An in-range start is kept as it is. |
| `JsArray.ActualDeleteCount` | js/photolite.js:74 | The delete count is clamped into [0, len − start]. An in-range count is kept and a negative one becomes 0. |
| `JsArray.Splice` | js/photolite.js:65 | The resulting array's length is the old length, minus the elements removed, plus the elements inserted. |
| `JsArray.SpliceInsert` | js/photolite.js:65 | `splice(start, 0, x)` grows the array by one and puts `x` at the clamped start. Elements before it are unchanged and elements after it move up by one. |
| `JsArray.SpliceRemove` | js/photolite.js:74 | `splice(start, 1)` removes exactly the element at the clamped start when that is inside the array. A start equal to the length removes nothing. |
| `JsNumber.NumberToString` | js/photolite.js:63 | The numeral is non-empty and all digits. It has no leading zero, and it is one digit exactly when n < 10. |
| `JsNumber.NumberToStringValue` | js/photolite.js:63 | Reading the numeral back as a decimal gives the number. |
| `JsNumber.NumberToStringInjective` | js/photolite.js:63 | Different numbers get different numerals. |
| `Layers.Filled` | js/photolite.js:36-37 | Every byte of the filled canvas is the given value. Filled(255) is init's white fill. |
| `Layers.NewLayer` | js/layer.js:5-14 | A new layer has exactly the given name and is visible. Its mode is "source-over" and its opacity 1.0. Its surface is 800 × 600 × 4 bytes, all 0 (transparent black). |
| `Filters.ToUint8Clamp` | js/photolite.js:290-293 | Values ≤ 0 store 0 and values ≥ 255 store 255. Others store the nearest integer, with ties to even. |
| `Filters.Gray` | js/photolite.js:290 | The grey level is within 1/3 of the mean of the three channels. |
| `Filters.Invert` | js/photolite.js:286-288 | The invert filter on a whole buffer. Its contract gives only the length; InvertAt and InvertInvolutive state what it does to each byte. |
| `Filters.Grayscale` | js/photolite.js:290-293 | The grayscale filter on a whole buffer. Its contract gives only the length; GrayscaleAt, GrayscaleChannelsEqual and GrayscaleIdempotent state what it does to each byte. |
| `Filters.StoredMean` | js/photolite.js:290-293 | Storing the mean (r+g+b)/3 in a Uint8ClampedArray stores exactly `(r+g+b+1) div 3`. |
| `Filters.InvertAt` | js/photolite.js:286-288 | After invert, each colour byte of every pixel is 255 − v and alpha is kept. |
| `Filters.GrayscaleAt` | js/photolite.js:290-293 | After grayscale, each colour byte of every pixel is that pixel's grey level and alpha is kept. |
| `Filters.Filtered` | js/photolite.js:283-295 | The loop keeps the buffer length. Any filter name other than "invert" and "grayscale" leaves the bytes unchanged. |
| `Filters.FilteredPixel` | js/photolite.js:283-295 | All four bytes of any pixel after the loop, for each filter name. |
| `Filters.InvertInvolutive` | js/photolite.js:286-288 | Inverting twice gives back the original bytes. |
| `Filters.GrayscaleChannelsEqual` | js/photolite.js:291-293 | After grayscale, R = G = B in every pixel and alpha is unchanged. |
| `Filters.GrayscaleFixesGreyPixel` | js/photolite.js:290-293 | Grayscale leaves a pixel whose colour channels are already equal as it is. |
| `Filters.GrayscaleIdempotentAt` | js/photolite.js:290-293 | Grayscale on a grey image leaves each byte as it is. |
| `Filters.GrayscaleIdempotent` | js/photolite.js:289-294 | Applying grayscale twice equals applying it once. |
| `Filters.FilterPixelInPlace` | js/photolite.js:284-294 | One loop pass rewrites the pixel's three colour bytes as each filter name requires, and no other byte. |
| `Filters.FilterImageData` | js/photolite.js:279-297 | The in-place loop over the copied image data yields exactly `Filtered(kind, px)`. |
| `History.Capture` | js/photolite.js:322-336 | The entry holds one snapshot per layer, in stack order. Each keeps the name, visibility, mode, opacity and pixels, together with the active index. |
| `History.Snapshot` | js/photolite.js:324-330 | A snapshot keeps the layer's name, visibility, mode, opacity and a copy of its pixels. |
| `History.ReviveSnapshot` | js/photolite.js:324-330 | Reviving a layer's snapshot gives back that layer, so a snapshot loses nothing. |
| `History.Revive` | js/photolite.js:347-359 | The layer rebuilt from a snapshot snapshots back to that same snapshot. |
| `History.Restore` | js/photolite.js:344-360 | Undo rebuilds one layer per snapshot, in order, each carrying what its snapshot recorded. |
| `History.RestoreCapture` | js/photolite.js:322-360 | Restoring a captured entry gives back the captured layer stack exactly. |
| `History.Push` | js/photolite.js:318-336 | The history grows by one up to 10. A full history drops its oldest entry first. The new entry is last and older entries keep their order. |
| `History.PushKeepsNewest` | js/photolite.js:316-336 | One saveState on a history of at most 10 keeps the newest 10 of the history followed by the entry. |
| `History.NewestAppend` | js/photolite.js:318-320 | Trimming to the newest entries before appending more changes nothing about the newest entries kept. |
| `History.PushAllKeepsNewest` | js/photolite.js:316-336 | After any number of saveState calls, the history is exactly the newest 10 entries ever recorded, oldest first. |
| `Editor.Max` | js/photolite.js:75 | Math.max on integers. |
| `Editor.LayerName` | js/photolite.js:63 | A non-empty override is the name; otherwise the name starts with "Layer ". LayerNameChoice states the numeral that follows. |
| `Editor.LayerNameChoice` | js/photolite.js:63 | A non-empty override is the name. Otherwise the name is "Layer " followed by a numeral whose value is the old stack length plus one. |
| `Editor.SteppedBrushSize` | js/photolite.js:55-56 | '[' subtracts exactly 5 from any size above 1 and ']' adds exactly 5 to any size below 100; otherwise, and for any other key, the size stays. Multiples of 5 in [0, 100] stay in that set. |
| `Editor.Render` | js/photolite.js:149-160 | Render draws exactly the visible layers, and no more of them than the stack holds. |
| `Editor.RenderOne` | js/photolite.js:154-158 | A single layer is drawn exactly when it is visible. |
| `Editor.RenderAppend` | js/photolite.js:153-159 | Rendering a stack split in two draws the lower part, then the upper part, so the visible layers are drawn bottom to top in stack order. |
| `Editor.FilterResult` | js/photolite.js:283-309 | A filter name other than invert, grayscale or blur leaves the pixels as they are. |
| `Editor.PhotoLite.constructor` | js/photolite.js:15-38 | After construction and `init`: one white "Background" layer, with index 1 and no active layer. The single history entry holds the blank background. The stroke state is at its defaults. The stack and every history entry's stack are non-empty (NonEmpty). |
| `Editor.PhotoLite.SaveState` | js/photolite.js:316-337 | The history becomes Push(history, Capture(layers, index)) and never grows past 10. Layers and index are untouched. |
| `Editor.PhotoLite.AddLayer` | js/photolite.js:62-70 | The stack grows by one, with the new layer at the clamped index + 1 and the rest in order. The index becomes old + 1, and one entry recording the new stack is pushed. The bound 0 ≤ index ≤ stack length is kept. |
| `Editor.PhotoLite.DeleteLayer` | js/photolite.js:72-79 | With ≤ 1 layer nothing changes. Otherwise the layer at the clamped start is removed, or nothing when the start is the length. The index becomes max(0, i − 1) and one entry is pushed after the removal. The index bound is kept, and so is NonEmpty: the last layer is never removed. |
| `Editor.PhotoLite.SetActiveLayer` | js/photolite.js:81-84 | The index becomes the given one; nothing else changes. |
| `Editor.PhotoLite.ToggleVisibility` | js/photolite.js:86-90 | Flips one layer's visibility without recording history. It throws exactly when no layer has that index. |
| `Editor.PhotoLite.MergeDown` | js/photolite.js:92-114 | At index 0 nothing changes. With no layer at the index, one entry is pushed and it throws. Otherwise the lower layer's pixels become the composite, keeping its other fields. The top layer is removed, two entries are pushed and the index ends at i − 2. NonEmpty is kept. |
| `Editor.PhotoLite.SetBlendMode` | js/photolite.js:261-264 | Sets the active layer's mode, or throws with nothing changed when there is no active layer. |
| `Editor.PhotoLite.ClearLayer` | js/photolite.js:266-271 | Records the state, then clears the active layer to transparent black. It throws after recording when there is no active layer. |
| `Editor.PhotoLite.ApplyFilter` | js/photolite.js:273-312 | Records the state, then replaces the active layer's pixels with the filter result. It throws after recording when there is no active layer. |
| `Editor.PhotoLite.Undo` | js/photolite.js:339-364 | With an empty history nothing changes. Otherwise the newest entry is popped and the stack and index are rebuilt from it. Like every other method, it keeps the stack and every recorded stack non-empty. |
| `Editor.PhotoLite.StartDraw` | js/photolite.js:200-207 | Pushes exactly one entry, even with no active layer. It starts the stroke at the pointer and paints its first segment onto the active layer, if there is one. |
| `Editor.PhotoLite.Draw` | js/photolite.js:209-238 | Nothing changes unless a stroke is on and a layer is active. Otherwise it paints the segment from the last point and moves the last point to the pointer. |
| `Editor.PhotoLite.StopDraw` | js/photolite.js:240-242 | The stroke ends. |
| `Editor.PhotoLite.SetTool` | js/photolite.js:246-250 | The current tool becomes the given one. |
| `Editor.PhotoLite.SetBrushSize` | js/photolite.js:253-256 | The brush size becomes the given integer. |
| `Editor.PhotoLite.KeyDown` | js/photolite.js:48-57 | Ctrl+Z undoes, 'b' and 'e' pick the brush and the eraser, and '[' and ']' step the brush size as SteppedBrushSize says. |
| `Editor.SaveStateThenUndo` | js/photolite.js:316-364 | saveState followed by undo gives back the layers and the index. The history is as before, less its oldest entry when it was full. |
| `Editor.InitAddSketchThenStroke` | js/photolite.js:200-213 | After init and addLayer("Sketch"), the new layer is on top and no layer is active, so a stroke paints nothing yet still records history. |

## Left out

- The DOM is not modelled: `updateLayerUI`, toolbar and slider labels, event-listener registration, `download`. These are user-interface output with no state of the session behind them.
- Image upload (`handleImageUpload`) is not modelled. It needs asynchronous file and image decoding and floating-point fit scaling.
- Canvas drawing is a parameter of the methods that use it: the merge composite with its alpha and blend arithmetic, the blur filter, and stroke rasterisation with round caps and joins. The model says where and on what these act, not what pixels they produce. For the blur, the context state it is drawn with is also left out (see ApplyFilter below).
- `render` is modelled only as the list of layers it draws; the display canvas is not modelled.
- Editor.PhotoLite.ApplyFilter: two canvas effects are not modelled. (1) `putImageData` writes into a premultiplied-alpha backing store, so colour bytes of pixels that are not fully opaque do not read back as written. On a transparent pixel, invert's (255, 255, 255, 0) reads back as (0, 0, 0, 0), and inverting a translucent pixel twice through the canvas need not restore it. InvertInvolutive and GrayscaleIdempotent are about the byte buffers the loop computes. (2) The blur is drawn through the layer context, whose composite operation and global alpha are left as the last stroke set them. After an eraser stroke (`destination-out`), drawing the blurred copy onto the cleared canvas leaves the layer transparent. The model applies the blur parameter as if drawn with `source-over` at full alpha.
- Filters.StoredMean: the mean `(r+g+b)/3` is a double division in the program and exact real division in the model. The exact mean has fraction 0, 1/3 or 2/3, so it is never within double rounding of a .5 tie, and the stored byte is the same.
- Brush colour and brush opacity (`setColor`, `setOpacity`) are not modelled. They only feed the stroke rasterisation, which is a parameter.
- `getMousePos` is not modelled: pointer positions are given directly as numbers.
- The PNG data URL round trip in `saveState`/`undo` is modelled as an exact copy of the pixels. The model shows the state after the asynchronous image load has finished; PNG premultiplied-alpha loss and the window before the load completes are not modelled.
- Non-integer, NaN or string layer indices are not modelled. Indices are integers, as the user interface produces them.
- Editor.PhotoLite.SetBrushSize: takes an integer rather than modelling `parseInt` on arbitrary input.
- Editor.PhotoLite.constructor: models `new PhotoLite()` followed by `init()` as one step. The DOM lookups of the constructor are left out.
