/** The pointer handling of `render_paint_canvas`: one frame turns the pointer
    state into a change of the canvas. Painting the lines is not modelled. */
module Input {
  import opened Seqs
  import opened Lines
  import opened Canvas

  /** What `response.interact_pointer_pos()` reports for the frame. */
  datatype Pointer = Pressed(pos: Pos2) | NotPressed

  /** The outcome of a frame: the next painter state and whether the response
      was marked changed, or the panic of `unwrap()` on an empty canvas. */
  datatype FrameResult = Drawn(painter: Painter, changed: bool) | Panicked

  /** How a pressed frame affects the canvas while a stroke is in progress:
      only the last line can change, and it gains `pos` exactly when `pos`
      differs from its last point. */
  ghost predicate ExtendsActiveLine(before: seq<Line>, after: seq<Line>, pos: Pos2, changed: bool)
    requires |before| > 0
  {
    var n := |before|;
    && |after| == n
    && after[..n - 1] == before[..n - 1]
    && after[n - 1].stroke == before[n - 1].stroke
    && (changed <==> Last(before[n - 1].points) != Some(pos))
    && after[n - 1].points == if changed then before[n - 1].points + [pos] else before[n - 1].points
  }

  /** A frame in which the pointer is held at `pos`. */
  function Press(p: Painter, pos: Pos2): (r: FrameResult)
    ensures r.Panicked? <==> p.currentlyDrawing && |p.canvas| == 0
    ensures !p.currentlyDrawing ==>
      r == Drawn(p.(canvas := p.canvas + [Line(p.currentStroke, [pos])], currentlyDrawing := true), true)
    ensures p.currentlyDrawing && |p.canvas| > 0 ==>
      r.Drawn? && ExtendsActiveLine(p.canvas, r.painter.canvas, pos, r.changed)
    ensures r.Drawn? ==>
      && r.painter.recentlyDeleted == p.recentlyDeleted
      && r.painter.currentStroke == p.currentStroke
      && r.painter.currentlyDrawing
      && |r.painter.canvas| > 0
      && Last(r.painter.canvas[|r.painter.canvas| - 1].points) == Some(pos)
  {
    var canvas := if p.currentlyDrawing then p.canvas else p.canvas + [NewLine(p.currentStroke)];
    if |canvas| == 0 then Panicked
    else
      var line := canvas[|canvas| - 1];
      assert !p.currentlyDrawing ==> canvas[..|canvas| - 1] == p.canvas && line.points + [pos] == [pos];
      var changed := Last(line.points) != Some(pos);
      var line' := if changed then line.(points := line.points + [pos]) else line;
      Drawn(p.(canvas := canvas[..|canvas| - 1] + [line'], currentlyDrawing := true), changed)
  }

  /** A frame in which the pointer is not held: unfinished lines are dropped
      and drawing stops. */
  function Release(p: Painter): (r: Painter)
    ensures forall l :: l in r.canvas <==> l in p.canvas && IsFinished(l)
    ensures |r.canvas| <= |p.canvas|
    ensures r.recentlyDeleted == p.recentlyDeleted && r.currentStroke == p.currentStroke
    ensures !r.currentlyDrawing
  {
    p.(canvas := RetainFinished(p.canvas), currentlyDrawing := false)
  }

  /** Releasing twice is releasing once. */
  lemma ReleaseIdempotent(p: Painter)
    ensures Release(Release(p)) == Release(p)
  {
    RetainIdempotent(p.canvas);
  }

  /** Release keeps the finished lines in their original relative order: the
      canvas seen as any split into an older and a newer part is filtered part
      by part. */
  lemma ReleaseKeepsOrder(p: Painter, older: seq<Line>, newer: seq<Line>)
    requires p.canvas == older + newer
    ensures Release(p).canvas == RetainFinished(older) + RetainFinished(newer)
  {
    RetainConcat(older, newer);
  }

  /** One frame of `render_paint_canvas`. */
  function PaintFrame(p: Painter, input: Pointer): (r: FrameResult)
    ensures r.Panicked? <==> input.Pressed? && p.currentlyDrawing && |p.canvas| == 0
    ensures r.Drawn? ==>
      && r.painter.recentlyDeleted == p.recentlyDeleted
      && r.painter.currentStroke == p.currentStroke
      && r.painter.currentlyDrawing == input.Pressed?
      && ActiveLinePresent(r.painter)
  {
    match input
    case Pressed(pos) => Press(p, pos)
    case NotPressed => Drawn(Release(p), false)
  }

  /** Frames never leave a line with two equal consecutive points. */
  lemma FrameKeepsNoStutter(p: Painter, input: Pointer)
    requires AllNoStutter(p.canvas)
    requires PaintFrame(p, input).Drawn?
    ensures AllNoStutter(PaintFrame(p, input).painter.canvas)
  {
  }

  /** Frames keep the whole painter well formed: the redo stack is untouched
      and the canvas keeps no repeated consecutive point. */
  lemma FrameKeepsWellformed(p: Painter, input: Pointer)
    requires Wellformed(p)
    requires PaintFrame(p, input).Drawn?
    ensures Wellformed(PaintFrame(p, input).painter)
  {
  }

  /** A run of frames, stopping at the first panic. */
  function RunFrames(p: Painter, inputs: seq<Pointer>): FrameResult
    decreases |inputs|
  {
    if |inputs| == 0 then Drawn(p, false)
    else
      match PaintFrame(p, inputs[0])
      case Panicked => Panicked
      case Drawn(q, _) => RunFrames(q, inputs[1..])
  }

  /** Without undo or clear in between, frames never reach the `unwrap()`
      panic: a state where a stroke has a line to extend stays that way, and
      the redo stack is never touched by drawing. */
  lemma {:induction false} FramesNeverPanic(p: Painter, inputs: seq<Pointer>)
    requires ActiveLinePresent(p)
    ensures RunFrames(p, inputs).Drawn?
    ensures RunFrames(p, inputs).painter.recentlyDeleted == p.recentlyDeleted
    decreases |inputs|
  {
    if |inputs| > 0 {
      FramesNeverPanic(PaintFrame(p, inputs[0]).painter, inputs[1..]);
    }
  }

  /** A stationary pointer adds nothing: the frames press at `a`, move to
      `b`, stay at `b` and release leave exactly one new line holding `a`
      then `b`, behind the finished lines already drawn. */
  lemma DuplicateSampleIgnored(p: Painter, a: Pos2, b: Pos2)
    requires !p.currentlyDrawing && a != b && p.currentStroke.width != 0.0
    ensures
      var r := RunFrames(p, [Pressed(a), Pressed(b), Pressed(b), NotPressed]);
      && r.Drawn?
      && r.painter.canvas == RetainFinished(p.canvas) + [Line(p.currentStroke, [a, b])]
      && r.painter.recentlyDeleted == p.recentlyDeleted
      && !r.painter.currentlyDrawing
  {
    var line := Line(p.currentStroke, [a, b]);
    var s := p.canvas + [Line(p.currentStroke, [a])];
    var q1 := PaintFrame(p, Pressed(a)).painter;
    assert q1.canvas == s;
    assert s[..|s| - 1] == p.canvas;
    assert [a] + [b] == [a, b];
    var q2 := PaintFrame(q1, Pressed(b)).painter;
    assert q2.canvas == p.canvas + [line];
    var q3 := PaintFrame(q2, Pressed(b)).painter;
    assert q3.canvas == p.canvas + [line];
    RetainConcat(p.canvas, [line]);
    assert RetainFinished([line]) == [line];
    assert RunFrames(p, [Pressed(a), Pressed(b), Pressed(b), NotPressed])
      == RunFrames(q1, [Pressed(b), Pressed(b), NotPressed]);
    assert RunFrames(q1, [Pressed(b), Pressed(b), NotPressed])
      == RunFrames(q2, [Pressed(b), NotPressed]);
    assert RunFrames(q2, [Pressed(b), NotPressed]) == RunFrames(q3, [NotPressed]);
  }

  /** A click without movement draws nothing: the single-point line it starts
      is dropped on release. */
  lemma SingleClickDiscarded(p: Painter, a: Pos2)
    requires !p.currentlyDrawing
    ensures
      var r := RunFrames(p, [Pressed(a), NotPressed]);
      && r.Drawn?
      && r.painter.canvas == RetainFinished(p.canvas)
      && r.painter.recentlyDeleted == p.recentlyDeleted
  {
    var dot := Line(p.currentStroke, [a]);
    var q1 := PaintFrame(p, Pressed(a)).painter;
    RetainConcat(p.canvas, [dot]);
    assert RetainFinished([dot]) == [];
    assert RunFrames(p, [Pressed(a), NotPressed]) == RunFrames(q1, [NotPressed]);
  }
}
