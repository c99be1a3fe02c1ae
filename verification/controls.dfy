/** The control panel (`render_tooltip`) and the whole frame (`update`): the
    canvas is painted first, then the panel's buttons and shortcuts act on the
    painter. Only their effect on the painter is modelled. */
module Controls {
  import opened Seqs
  import opened Lines
  import opened Canvas
  import opened Input

  /** What the control panel asks for in one frame: "Clear all" clicked,
      "Remove last" clicked or Ctrl+Z, "Restore last" clicked or Ctrl+Y, and
      the stroke as the width slider and colour picker leave it. */
  datatype Panel = Panel(clearAll: bool, removeLast: bool, restoreLast: bool, stroke: Stroke)

  /** A panel that asks for nothing and keeps `stroke`. */
  function Untouched(stroke: Stroke): Panel
  {
    Panel(false, false, false, stroke)
  }

  /** The effect of `render_tooltip`: clear, then undo, then redo, each when
      asked for, then the edited stroke becomes the current one. */
  function Tooltip(p: Painter, panel: Panel): (r: Painter)
    ensures History(r) == History(p)
    ensures r.currentStroke == panel.stroke && r.currentlyDrawing == p.currentlyDrawing
    ensures panel.clearAll && !panel.restoreLast ==> r.canvas == []
    ensures !panel.clearAll && !panel.removeLast ==> p.canvas <= r.canvas
    ensures !panel.clearAll && !panel.removeLast && !panel.restoreLast ==>
      r == p.(currentStroke := panel.stroke)
    ensures panel.clearAll && !panel.removeLast && !panel.restoreLast ==>
      r == ClearCanvas(p).(currentStroke := panel.stroke)
    ensures !panel.clearAll && panel.removeLast && !panel.restoreLast ==>
      r == RemoveLastLine(p).(currentStroke := panel.stroke)
    ensures !panel.clearAll && !panel.removeLast && panel.restoreLast ==>
      r == RestoreLastLine(p).(currentStroke := panel.stroke)
    ensures !panel.clearAll && panel.removeLast && panel.restoreLast && |p.canvas| > 0 ==>
      r == p.(currentStroke := panel.stroke)
  {
    var cleared := if panel.clearAll then ClearCanvas(p) else p;
    var undone := if panel.removeLast then RemoveLastLine(cleared) else cleared;
    var redone := if panel.restoreLast then RestoreLastLine(undone) else undone;
    redone.(currentStroke := panel.stroke)
  }

  /** One call of `update`: paint the canvas, then run the panel. */
  function Update(p: Painter, input: Pointer, panel: Panel): (r: FrameResult)
    ensures r.Panicked? <==> input.Pressed? && p.currentlyDrawing && |p.canvas| == 0
    ensures r.Drawn? ==> r.painter.currentlyDrawing == input.Pressed?
    ensures r.Drawn? && !panel.clearAll && !panel.removeLast && !panel.restoreLast ==>
      r.painter.recentlyDeleted == p.recentlyDeleted
  {
    match PaintFrame(p, input)
    case Panicked => Panicked
    case Drawn(q, changed) => Drawn(Tooltip(q, panel), changed)
  }

  datatype Step = Step(pointer: Pointer, panel: Panel)

  /** A run of `update` calls, stopping at the first panic. */
  function RunSession(p: Painter, steps: seq<Step>): FrameResult
    decreases |steps|
  {
    if |steps| == 0 then Drawn(p, false)
    else
      match Update(p, steps[0].pointer, steps[0].panel)
      case Panicked => Panicked
      case Drawn(q, _) => RunSession(q, steps[1..])
  }

  /** A frame cannot lose the active line when the panel does not undo or
      clear in a frame where the pointer is held. */
  predicate SafeStep(s: Step)
  {
    s.pointer.Pressed? ==> !s.panel.clearAll && !s.panel.removeLast
  }

  /** One safe frame keeps the painter well formed and keeps a line for the
      stroke in progress, so it does not panic. */
  lemma UpdateKeepsInvariant(p: Painter, s: Step)
    requires ActiveLinePresent(p) && Wellformed(p) && SafeStep(s)
    ensures Update(p, s.pointer, s.panel).Drawn?
    ensures ActiveLinePresent(Update(p, s.pointer, s.panel).painter)
    ensures Wellformed(Update(p, s.pointer, s.panel).painter)
  {
    FrameKeepsWellformed(p, s.pointer);
  }

  /** The `unwrap()` in `render_paint_canvas` never panics in a session that
      starts with a line for any stroke in progress and never undoes or clears
      while the pointer is held. */
  lemma {:induction false} SafeSessionNeverPanics(p: Painter, steps: seq<Step>)
    requires ActiveLinePresent(p) && Wellformed(p)
    requires forall i :: 0 <= i < |steps| ==> SafeStep(steps[i])
    ensures RunSession(p, steps).Drawn?
    ensures Wellformed(RunSession(p, steps).painter)
    decreases |steps|
  {
    if |steps| > 0 {
      UpdateKeepsInvariant(p, steps[0]);
      SafeSessionNeverPanics(Update(p, steps[0].pointer, steps[0].panel).painter, steps[1..]);
    }
  }

  /** Undo or clear while the pointer is held can remove the line being
      drawn while `currently_drawing` stays true; if that was the only line,
      the next held frame panics at the `unwrap()`. */
  lemma UndoWhileDrawingPanics(p: Painter, a: Pos2, b: Pos2, panel: Panel, next: Panel)
    requires !p.currentlyDrawing && !panel.restoreLast
    requires panel.clearAll || (panel.removeLast && p.canvas == [])
    ensures Update(p, Pressed(a), panel).Drawn?
    ensures
      var q := Update(p, Pressed(a), panel).painter;
      q.currentlyDrawing && q.canvas == [] && Update(q, Pressed(b), next) == Panicked
  {
  }

  /** Undo while the pointer is held over an older, finished line removes the
      new line but keeps `currently_drawing`; the next held frame then appends
      to the older line, which had already been released. */
  lemma UndoWhileDrawingExtendsFinishedLine(p: Painter, a: Pos2, b: Pos2, panel: Panel)
    requires !p.currentlyDrawing && |p.canvas| > 0
    requires !panel.clearAll && panel.removeLast && !panel.restoreLast
    requires Last(p.canvas[|p.canvas| - 1].points) != Some(b)
    ensures
      var q := Update(p, Pressed(a), panel).painter;
      var n := |p.canvas|;
      var older := p.canvas[n - 1];
      && q.currentlyDrawing
      && q.canvas == p.canvas
      && PaintFrame(q, Pressed(b))
           == Drawn(q.(canvas := p.canvas[..n - 1] + [older.(points := older.points + [b])]), true)
  {
  }

  /** Redo while the pointer is held appends the restored line behind the
      line being drawn; the next held frame then extends the restored line
      instead of the stroke in progress. No panic is involved, so `SafeStep`
      allows it. */
  lemma RedoWhileDrawingExtendsRestored(p: Painter, a: Pos2, b: Pos2, panel: Panel)
    requires !p.currentlyDrawing && |p.recentlyDeleted| > 0
    requires !panel.clearAll && !panel.removeLast && panel.restoreLast
    requires
      var d := p.recentlyDeleted;
      Last(d[|d| - 1].points) != Some(b)
    ensures
      var d := p.recentlyDeleted;
      var restored := d[|d| - 1];
      var started := p.canvas + [Line(p.currentStroke, [a])];
      var q := Update(p, Pressed(a), panel).painter;
      && q.currentlyDrawing
      && q.canvas == started + [restored]
      && PaintFrame(q, Pressed(b))
           == Drawn(q.(canvas := started + [restored.(points := restored.points + [b])]), true)
  {
    var q0 := PaintFrame(p, Pressed(a)).painter;
    assert q0.canvas == p.canvas + [Line(p.currentStroke, [a])];
    var q := Update(p, Pressed(a), panel).painter;
    assert q.canvas[..|q.canvas| - 1] == q0.canvas;
  }

  /** Drawing does not clear the redo stack: after an undo, a new stroke and
      then a redo, the undone line comes back after the newer stroke. */
  lemma RedoAfterNewStrokeReorders(p: Painter, a: Pos2, b: Pos2)
    requires !p.currentlyDrawing && |p.canvas| > 0
    requires forall l :: l in p.canvas ==> IsFinished(l)
    requires a != b && p.currentStroke.width != 0.0
    ensures
      var n, s := |p.canvas|, p.currentStroke;
      var steps := [
        Step(NotPressed, Panel(false, true, false, s)),
        Step(Pressed(a), Untouched(s)),
        Step(Pressed(b), Untouched(s)),
        Step(NotPressed, Panel(false, false, true, s))];
      var r := RunSession(p, steps);
      && r.Drawn?
      && r.painter.canvas == p.canvas[..n - 1] + [Line(s, [a, b]), p.canvas[n - 1]]
      && r.painter.recentlyDeleted == p.recentlyDeleted
  {
    var n, s := |p.canvas|, p.currentStroke;
    var older, last := p.canvas[..n - 1], p.canvas[n - 1];
    var steps := [
      Step(NotPressed, Panel(false, true, false, s)),
      Step(Pressed(a), Untouched(s)),
      Step(Pressed(b), Untouched(s)),
      Step(NotPressed, Panel(false, false, true, s))];
    UndoWhileIdle(p);
    var q1 := p.(canvas := older, recentlyDeleted := p.recentlyDeleted + [last]);
    assert forall l :: l in older ==> l in p.canvas;
    StrokeThenRedo(q1, a, b);
    var d1 := q1.recentlyDeleted;
    assert d1[..|d1| - 1] == p.recentlyDeleted && d1[|d1| - 1] == last;
    assert RunSession(p, steps) == RunSession(q1, steps[1..]);
  }

  /** Drawing a two-point stroke and then redoing on release puts the top of
      the redo stack after the new stroke. */
  lemma StrokeThenRedo(q: Painter, a: Pos2, b: Pos2)
    requires !q.currentlyDrawing && |q.recentlyDeleted| > 0
    requires forall l :: l in q.canvas ==> IsFinished(l)
    requires a != b && q.currentStroke.width != 0.0
    ensures
      var s, d := q.currentStroke, q.recentlyDeleted;
      var steps := [
        Step(Pressed(a), Untouched(s)),
        Step(Pressed(b), Untouched(s)),
        Step(NotPressed, Panel(false, false, true, s))];
      RunSession(q, steps) ==
        Drawn(q.(canvas := q.canvas + [Line(s, [a, b]), d[|d| - 1]], recentlyDeleted := d[..|d| - 1]), false)
  {
    var s, d := q.currentStroke, q.recentlyDeleted;
    var line := Line(s, [a, b]);
    var steps := [
      Step(Pressed(a), Untouched(s)),
      Step(Pressed(b), Untouched(s)),
      Step(NotPressed, Panel(false, false, true, s))];
    DrawTwoPoints(q, a, b);
    var q3 := q.(canvas := q.canvas + [line], currentlyDrawing := true);
    assert RunSession(q, steps) == RunSession(q3, steps[2..]);
    RetainUnchangedIffAllFinished(q3.canvas);
    RedoOnRelease(q3);
    AppendTwo(q.canvas, line, d[|d| - 1]);
    var q4 := q.(canvas := q.canvas + [line, d[|d| - 1]], recentlyDeleted := d[..|d| - 1]);
    assert Update(q3, NotPressed, steps[2].panel) == Drawn(q4, false);
  }

  /** An undo in a frame without a press moves the last line to the redo stack. */
  lemma UndoWhileIdle(p: Painter)
    requires !p.currentlyDrawing && |p.canvas| > 0
    requires forall l :: l in p.canvas ==> IsFinished(l)
    ensures
      var n := |p.canvas|;
      Update(p, NotPressed, Panel(false, true, false, p.currentStroke)).painter
        == p.(canvas := p.canvas[..n - 1], recentlyDeleted := p.recentlyDeleted + [p.canvas[n - 1]])
  {
    RetainUnchangedIffAllFinished(p.canvas);
  }

  /** Two held frames at distinct positions draw a two-point line. */
  lemma DrawTwoPoints(q: Painter, a: Pos2, b: Pos2)
    requires !q.currentlyDrawing && a != b
    ensures
      var s := q.currentStroke;
      var q3 := q.(canvas := q.canvas + [Line(s, [a, b])], currentlyDrawing := true);
      && Update(q, Pressed(a), Untouched(s)).Drawn?
      && Update(Update(q, Pressed(a), Untouched(s)).painter, Pressed(b), Untouched(s)) == Drawn(q3, true)
  {
    var s := q.currentStroke;
    var q2 := Update(q, Pressed(a), Untouched(s)).painter;
    assert q2.canvas == q.canvas + [Line(s, [a])];
    assert q2.canvas[..|q2.canvas| - 1] == q.canvas;
    assert [a] + [b] == [a, b];
  }

  /** A redo in a frame without a press, over finished lines, brings back the
      top of the redo stack. */
  lemma RedoOnRelease(q: Painter)
    requires |q.canvas| > 0 && |q.recentlyDeleted| > 0
    requires forall l :: l in q.canvas ==> IsFinished(l)
    ensures
      var d := q.recentlyDeleted;
      Update(q, NotPressed, Panel(false, false, true, q.currentStroke)).painter
        == q.(canvas := q.canvas + [d[|d| - 1]], recentlyDeleted := d[..|d| - 1], currentlyDrawing := false)
  {
    RetainUnchangedIffAllFinished(q.canvas);
  }
}
