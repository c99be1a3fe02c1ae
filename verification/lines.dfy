/** A drawn line: its stroke style and the pointer positions it passes through
    (`struct Line` and `Line::new` in src/main.rs), plus the rule deciding which
    lines survive once the pointer is released. */
module Lines {
  import opened Seqs

  newtype byte = x: int | 0 <= x < 256

  /** egui's `Pos2`, a position in surface-local coordinates. The model only
      ever compares positions for equality. */
  datatype Pos2 = Pos2(x: real, y: real)

  /** egui's `Color32`: red, green, blue and alpha channels. */
  datatype Color32 = Color32(r: byte, g: byte, b: byte, a: byte)

  /** `Color32::from_rgb`: an opaque colour. */
  function FromRgb(r: byte, g: byte, b: byte): Color32
  {
    Color32(r, g, b, 255)
  }

  /** egui's `Stroke`; `width` is a float in the source and a real here. */
  datatype Stroke = Stroke(width: real, color: Color32)

  datatype Line = Line(stroke: Stroke, points: seq<Pos2>)

  /** `Line::new`: a line in the given style with no points yet. What a new
      stroke looks like after its first frame is stated by `Input.Press`. */
  function NewLine(stroke: Stroke): (l: Line)
    ensures l.stroke == stroke && l.points == []
  {
    Line(stroke, [])
  }

  /** The condition `Vec::retain` keeps a line under when the pointer is
      released: at least two points and a non-zero width. */
  predicate IsFinished(l: Line)
  {
    |l.points| > 1 && l.stroke.width != 0.0
  }

  /** No two consecutive positions of the line are equal. */
  predicate NoStutter(points: seq<Pos2>)
  {
    forall i :: 0 < i < |points| ==> points[i - 1] != points[i]
  }

  predicate AllNoStutter(lines: seq<Line>)
  {
    forall l :: l in lines ==> NoStutter(l.points)
  }

  /** `canvas.retain(...)` on release: keeps exactly the finished lines. */
  function RetainFinished(lines: seq<Line>): (r: seq<Line>)
    ensures |r| <= |lines|
    ensures forall l :: l in r <==> l in lines && IsFinished(l)
  {
    if |lines| == 0 then []
    else if IsFinished(lines[0]) then [lines[0]] + RetainFinished(lines[1..])
    else RetainFinished(lines[1..])
  }

  /** Retention works element by element, so it keeps the relative order of
      the lines: filtering a concatenation is concatenating the filtered parts. */
  lemma {:induction false} RetainConcat(a: seq<Line>, b: seq<Line>)
    ensures RetainFinished(a + b) == RetainFinished(a) + RetainFinished(b)
  {
    if |a| == 0 {
      assert a + b == b;
    } else {
      assert (a + b)[1..] == a[1..] + b;
      RetainConcat(a[1..], b);
    }
  }

  /** A sequence is left alone by retention exactly when every line in it is
      finished. */
  lemma {:induction false} RetainUnchangedIffAllFinished(lines: seq<Line>)
    ensures RetainFinished(lines) == lines <==> forall l :: l in lines ==> IsFinished(l)
  {
    if forall l :: l in lines ==> IsFinished(l) {
      RetainAllFinished(lines);
    }
  }

  /** The induction behind the lemma above: a sequence of finished lines is
      kept whole. */
  lemma {:induction false} RetainAllFinished(lines: seq<Line>)
    requires forall l :: l in lines ==> IsFinished(l)
    ensures RetainFinished(lines) == lines
  {
    if |lines| > 0 {
      var rest := lines[1..];
      assert forall l :: l in rest ==> l in lines;
      RetainAllFinished(rest);
      assert IsFinished(lines[0]);
      assert lines == [lines[0]] + rest;
    }
  }

  /** Retaining twice is retaining once. */
  lemma RetainIdempotent(lines: seq<Line>)
    ensures RetainFinished(RetainFinished(lines)) == RetainFinished(lines)
  {
  }
}
