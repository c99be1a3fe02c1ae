# Screen painter: stroke and undo model

A Dafny model of the drawing core of the screen painter, a transparent
full-screen overlay for drawing freehand lines on top of the desktop. The
core lives in `src/main.rs`:

- a `ScreenPainter` holds `canvas`, the visible lines in drawing order,
  `recently_deleted`, the redo stack, the `current_stroke` (width and colour)
  that the next line gets, and the flag `currently_drawing`;
- "Remove last" / Ctrl+Z pops the last line of the canvas onto the redo stack,
  "Restore last" / Ctrl+Y pops the redo stack back onto the canvas, and
  "Clear all" undoes until the canvas is empty, so a clear is itself
  undoable line by line;
- every frame, `render_paint_canvas` reads the pointer: a press while not
  drawing starts a new line, a press while drawing appends the position to the
  last line unless it repeats that line's last point, and a frame without a
  press drops every line with fewer than two points or zero width and stops
  drawing. The line being drawn is always the last line of the canvas.

Modules, one per component, all state immutable and every step a pure
function:

- `Seqs` (`seqs.dfy`): `Vec::last`, `Vec::pop` and sequence reversal.
- `Lines` (`lines.dfy`): `Pos2`, `Color32`, `Stroke`, `Line`, `Line::new`,
  and the release filter `RetainFinished`.
- `Canvas` (`canvas.dfy`): the painter state, its default, undo, redo and
  clear. `History(p)`, the canvas followed by the redo stack read top down,
  is the invariant all three keep: they only move the boundary between the
  two stacks.
- `Input` (`input.dfy`): one frame of pointer handling (`PaintFrame`), with
  the `unwrap()` of `canvas.last_mut()` modelled as a `Panicked` outcome.
- `Controls` (`controls.dfy`): the effect of the control panel and of a whole
  `update` call (pointer handling first, then the panel), and runs of frames.

The `unwrap()` at `src/main.rs:84` is safe right after a new line is pushed,
but the panel runs after the pointer handling in the same frame, and Ctrl+Z
can be pressed while the mouse button is held. The model states the
condition under which no panic can happen (`SafeSessionNeverPanics`: no undo
or clear in a frame where the pointer is held) and shows both ways it goes
wrong otherwise: the canvas empties and the next held frame panics
(`UndoWhileDrawingPanics`), or the next held frame extends an older line that
had already been released (`UndoWhileDrawingExtendsFinishedLine`).
`SafeStep` rules out only the panic: a redo while the button is held is
allowed by it, yet the next held frame then extends the restored line rather
than the stroke in progress (`RedoWhileDrawingExtendsRestored`).

Drawing a new line does not clear the redo stack, so a redo after new drawing
brings back an older line after a newer one (`RedoAfterNewStrokeReorders`).
The model keeps this behaviour of the code as it is.

## Model

| member | source | states |
|---|---|---|
| Lines.RetainFinished | src/main.rs:96-97 | a line is kept exactly when it was on the canvas and has more than one point and a non-zero width; the result is never longer |
| Lines.RetainConcat | src/main.rs:96-97 | retention keeps the relative order of lines: filtering a concatenation is the concatenation of the filtered parts |
| Lines.RetainUnchangedIffAllFinished | src/main.rs:96-97 | retention leaves a canvas unchanged if and only if every line in it is finished |
| Lines.RetainIdempotent | src/main.rs:96-97 | retaining twice is retaining once |
| Canvas.Default | src/main.rs:191-202 | the initial painter has nothing to undo or redo, is not drawing, is well formed, and has a visible (positive-width) stroke |
| Canvas.RemoveLastLine | src/main.rs:50-56 | on a non-empty canvas the last line moves to the top of the redo stack and the rest of the canvas is unchanged; on an empty canvas nothing changes; History, stroke and drawing flag are kept |
| Canvas.RestoreLastLine | src/main.rs:57-63 | on a non-empty redo stack its top line is appended to the canvas and the rest of the stack is unchanged; on an empty stack nothing changes; History is kept |
| Canvas.RestoreAfterRemove | src/main.rs:50-63 | a redo right after a successful undo restores the painter exactly, same line, points and stroke |
| Canvas.RemoveAfterRestore | src/main.rs:50-63 | an undo right after a successful redo restores the painter exactly |
| Canvas.ClearCanvas | src/main.rs:64-68 | clearing terminates with an empty canvas and a redo stack equal to the old one followed by the old canvas reversed; History is kept |
| Canvas.UndoAllIsClear | src/main.rs:64-68 | undoing once per line is the same as clearing |
| Canvas.RestoreTimesMovesTop | src/main.rs:57-63 | k redos move the top k lines of the redo stack, topmost first, onto the canvas and leave the rest of the stack |
| Canvas.RedoAfterClearRestores | src/main.rs:57-68 | after a clear, one redo per cleared line gives back the original painter, lines in their original order |
| Input.Press | src/main.rs:74-91 | a held frame panics exactly when drawing with an empty canvas; when not drawing it appends a new line in the current stroke (`Line::new`, src/main.rs:182-188) whose only point is the position; when drawing it changes only the last line, appending the position exactly when it differs from that line's last point; it never touches the redo stack and leaves the last line ending at the position |
| Input.Release | src/main.rs:92-100 | a frame without a press keeps exactly the finished lines, never touches the redo stack or stroke, and stops drawing |
| Input.ReleaseIdempotent | src/main.rs:92-100 | two release frames in a row have the effect of one |
| Input.ReleaseKeepsOrder | src/main.rs:96-97 | release filters any older/newer split of the canvas part by part, so the surviving lines keep their order |
| Input.PaintFrame | src/main.rs:74-100 | a frame panics exactly when the pointer is held, drawing is on and the canvas is empty; otherwise the redo stack and stroke are untouched, drawing is on exactly when the pointer is held, and a line for the stroke in progress exists afterwards |
| Input.FrameKeepsNoStutter | src/main.rs:84-90 | no frame creates a line with two equal consecutive points |
| Input.FrameKeepsWellformed | src/main.rs:74-100 | frames keep every line on both stacks free of equal consecutive points |
| Input.FramesNeverPanic | src/main.rs:74-91 | without undo or clear in between, any run of frames from a state with a line for the stroke in progress never panics and never changes the redo stack |
| Input.DuplicateSampleIgnored | src/main.rs:74-100 | press at a, move to b, stay at b, release: exactly one new two-point line a, b is added behind the finished lines |
| Input.SingleClickDiscarded | src/main.rs:74-100 | press and release without moving adds no line |
| Controls.Tooltip | src/main.rs:116-158 | "Clear all" alone clears, "Remove last" (button or Ctrl+Z) alone undoes, "Restore last" (button or Ctrl+Y) alone redoes, nothing asked changes only the stroke, and undo then redo in one frame on a non-empty canvas changes nothing; in every combination History is kept, the edited stroke becomes current, clear without redo empties the canvas, and without clear or undo the old canvas stays a prefix |
| Controls.Update | src/main.rs:168-176 | a whole frame panics exactly when the pointer is held, drawing is on and the canvas is empty; a frame in which the panel does nothing leaves the redo stack alone |
| Controls.UpdateKeepsInvariant | src/main.rs:74-133 | a frame that does not undo or clear while the pointer is held does not panic and keeps the painter well formed with a line for any stroke in progress |
| Controls.SafeSessionNeverPanics | src/main.rs:74-133 | any session of such frames, from such a state, never panics and stays well formed |
| Controls.UndoWhileDrawingPanics | src/main.rs:74-133 | undo of the only line, or clear, in the frame that starts a stroke leaves drawing on over an empty canvas, and the next held frame panics |
| Controls.UndoWhileDrawingExtendsFinishedLine | src/main.rs:74-133 | undo in the frame that starts a stroke over an older line leaves drawing on, and the next held frame appends to the older, already released line |
| Controls.RedoWhileDrawingExtendsRestored | src/main.rs:74-145 | redo in the frame that starts a stroke puts the restored line after the new one while drawing stays on, and the next held frame appends to the restored line |
| Controls.RedoAfterNewStrokeReorders | src/main.rs:50-100 | undo, drawing a new line and redo put the undone line after the newer one, since drawing does not clear the redo stack |

## Left out

- `main` and the `eframe::run_native` window options (src/main.rs:3-16) and the font setup of `ScreenPainter::new` (src/main.rs:30-48): host framework configuration.
- Rendering: `Shape::line`, `painter.extend`, the central panel, the panel window and `clear_color` (src/main.rs:102-108, 167-180); immediate-mode drawing with nothing to prove.
- The "Exit" button and `frame.close()` (src/main.rs:161-163): a request to the host, with no effect on the painter.
- The "Clear all (N)" label: display only.
- `response.mark_changed()` is kept only as the `changed` flag of a frame's result.
- Controls.Tooltip: the width slider's range 0.1 to 30.0 (src/main.rs:151) is not enforced; the panel may set any stroke, so widths of zero or below stay possible in the model.
- Floating point: widths and positions are reals; NaN and float rounding are not modelled, and `Pos2` is only ever compared for equality.
- Colours: the colour picker's output is any `Color32`; premultiplied alpha is not modelled.
- Undo and redo return nothing in the code; the model follows the code rather than a boolean-returning variant.
