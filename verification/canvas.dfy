/** The painter's state (`struct ScreenPainter`) and its undo model: the live
    lines of the canvas and the stack of recently deleted lines that redo
    draws from. */
module Canvas {
  import opened Seqs
  import opened Lines

  /** `canvas` holds the visible lines in rendering order, the line being
      drawn last; `recentlyDeleted` is the redo stack, most recently removed
      last. */
  datatype Painter = Painter(
    canvas: seq<Line>,
    recentlyDeleted: seq<Line>,
    currentStroke: Stroke,
    currentlyDrawing: bool)

  /** The canvas followed by the redo stack read from its top down. Undo,
      redo and clear only move the boundary between the two halves of this
      sequence; drawing changes it (a new line goes in before the redo stack,
      and release drops unfinished lines from the canvas half). */
  function History(p: Painter): seq<Line>
  {
    p.canvas + Reverse(p.recentlyDeleted)
  }

  /** While a stroke is in progress there is a line for it to extend. */
  predicate ActiveLinePresent(p: Painter)
  {
    p.currentlyDrawing ==> |p.canvas| > 0
  }

  /** No line on either stack repeats a position twice in a row. */
  predicate Wellformed(p: Painter)
  {
    AllNoStutter(History(p))
  }

  /** `ScreenPainter::default`: nothing drawn, nothing to redo, not drawing,
      and a 3-wide opaque green stroke. */
  function Default(): (p: Painter)
    ensures History(p) == []
    ensures ActiveLinePresent(p) && Wellformed(p)
    ensures p.currentStroke.width > 0.0
  {
    Painter([], [], Stroke(3.0, FromRgb(25, 200, 100)), false)
  }

  /** `remove_last_line` (undo). */
  function RemoveLastLine(p: Painter): (r: Painter)
    ensures |p.canvas| == 0 ==> r == p
    ensures |p.canvas| > 0 ==>
      && r.canvas + [p.canvas[|p.canvas| - 1]] == p.canvas
      && r.recentlyDeleted == p.recentlyDeleted + [p.canvas[|p.canvas| - 1]]
    ensures History(r) == History(p)
    ensures r.currentStroke == p.currentStroke && r.currentlyDrawing == p.currentlyDrawing
  {
    match Pop(p.canvas)
    case None => p
    case Some((rest, removed)) =>
      ReverseConcat(p.recentlyDeleted, [removed]);
      p.(canvas := rest, recentlyDeleted := p.recentlyDeleted + [removed])
  }

  /** `restore_last_line` (redo). */
  function RestoreLastLine(p: Painter): (r: Painter)
    ensures |p.recentlyDeleted| == 0 ==> r == p
    ensures |p.recentlyDeleted| > 0 ==>
      && r.recentlyDeleted + [p.recentlyDeleted[|p.recentlyDeleted| - 1]] == p.recentlyDeleted
      && r.canvas == p.canvas + [p.recentlyDeleted[|p.recentlyDeleted| - 1]]
    ensures History(r) == History(p)
    ensures r.currentStroke == p.currentStroke && r.currentlyDrawing == p.currentlyDrawing
  {
    match Pop(p.recentlyDeleted)
    case None => p
    case Some((rest, restored)) =>
      ReverseConcat(rest, [restored]);
      p.(canvas := p.canvas + [restored], recentlyDeleted := rest)
  }

  /** Redo undoes a successful undo exactly. */
  lemma RestoreAfterRemove(p: Painter)
    requires |p.canvas| > 0
    ensures RestoreLastLine(RemoveLastLine(p)) == p
  {
  }

  /** Undo undoes a successful redo exactly. */
  lemma RemoveAfterRestore(p: Painter)
    requires |p.recentlyDeleted| > 0
    ensures RemoveLastLine(RestoreLastLine(p)) == p
  {
  }

  /** `clear_canvas`: undo until the canvas is empty. */
  function ClearCanvas(p: Painter): (r: Painter)
    ensures r.canvas == []
    ensures r.recentlyDeleted == p.recentlyDeleted + Reverse(p.canvas)
    ensures History(r) == History(p)
    ensures r.currentStroke == p.currentStroke && r.currentlyDrawing == p.currentlyDrawing
    decreases |p.canvas|
  {
    if |p.canvas| == 0 then p
    else
      var n := |p.canvas|;
      var last, rest := p.canvas[n - 1], p.canvas[..n - 1];
      assert Reverse(p.canvas) == [last] + Reverse(rest);
      assert (p.recentlyDeleted + [last]) + Reverse(rest) == p.recentlyDeleted + ([last] + Reverse(rest));
      ClearCanvas(RemoveLastLine(p))
  }

  /** `n` consecutive undos. */
  function RemoveTimes(p: Painter, n: nat): Painter
    decreases n
  {
    if n == 0 then p else RemoveTimes(RemoveLastLine(p), n - 1)
  }

  /** `n` consecutive redos. */
  function RestoreTimes(p: Painter, n: nat): Painter
    decreases n
  {
    if n == 0 then p else RestoreTimes(RestoreLastLine(p), n - 1)
  }

  /** Undoing as many times as there are lines is the same as clearing. */
  lemma {:induction false} UndoAllIsClear(p: Painter)
    ensures RemoveTimes(p, |p.canvas|) == ClearCanvas(p)
    decreases |p.canvas|
  {
    if |p.canvas| > 0 {
      UndoAllIsClear(RemoveLastLine(p));
    }
  }

  /** `r` is `p` with the top `k` lines of the redo stack moved, topmost
      first, onto the canvas. */
  ghost predicate MovedTop(p: Painter, k: nat, r: Painter)
  {
    var d := p.recentlyDeleted;
    && k <= |d|
    && r.canvas == p.canvas + Reverse(d[|d| - k..])
    && r.recentlyDeleted == d[..|d| - k]
    && r.currentStroke == p.currentStroke
    && r.currentlyDrawing == p.currentlyDrawing
  }

  /** `k` redos move the top `k` lines of the redo stack onto the canvas. */
  lemma {:induction false} RestoreTimesMovesTop(p: Painter, k: nat)
    requires k <= |p.recentlyDeleted|
    ensures MovedTop(p, k, RestoreTimes(p, k))
    decreases k
  {
    var d := p.recentlyDeleted;
    if k == 0 {
      assert d[..|d|] == d;
      assert d[|d|..] == [];
    } else {
      RestoreTimesMovesTop(RestoreLastLine(p), k - 1);
      MovedTopStep(p, k, RestoreTimes(p, k));
    }
  }

  /** One redo followed by `k - 1` more moves the top `k` lines. */
  lemma MovedTopStep(p: Painter, k: nat, r: Painter)
    requires 0 < k <= |p.recentlyDeleted|
    requires MovedTop(RestoreLastLine(p), k - 1, r)
    ensures MovedTop(p, k, r)
  {
    var d := p.recentlyDeleted;
    var d1, top := d[..|d| - 1], d[|d| - k..];
    var top1 := d1[|d1| - (k - 1)..];
    assert top[..|top| - 1] == top1;
    assert Reverse(top) == [top[|top| - 1]] + Reverse(top1);
    assert d1[..|d1| - (k - 1)] == d[..|d| - k];
    assert (p.canvas + [d[|d| - 1]]) + Reverse(top1) == p.canvas + ([d[|d| - 1]] + Reverse(top1));
  }

  /** Clearing and then redoing once per cleared line restores the painter
      exactly, the lines back in their original order. */
  lemma RedoAfterClearRestores(p: Painter)
    ensures RestoreTimes(ClearCanvas(p), |p.canvas|) == p
  {
    var c := ClearCanvas(p);
    var old_d, rev := p.recentlyDeleted, Reverse(p.canvas);
    var d := c.recentlyDeleted;
    assert d == old_d + rev;
    RestoreTimesMovesTop(c, |p.canvas|);
    assert |d| - |p.canvas| == |old_d|;
    assert d[|old_d|..] == rev;
    assert d[..|old_d|] == old_d;
    ReverseReverse(p.canvas);
    assert c.canvas + Reverse(rev) == p.canvas;
  }
}
