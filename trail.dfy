/**
 * The trail state machine of MainView.DrawPoints as a function of its
 * state, the window rectangle and one cursor sample.
 */
module Trail {
  import opened Controls

  datatype Point = Point(x: int, y: int)

  /** The "no previous point" value (-1, -1). */
  const NoPoint := Point(-1, -1)

  /** The window's Left, Top, ActualWidth and ActualHeight. */
  datatype Bounds = Bounds(left: int, top: int, width: int, height: int)

  /** The bounds test of DrawPoints: inclusive on all four edges. */
  predicate Inside(b: Bounds, p: Point) {
    b.left <= p.x <= b.left + b.width && b.top <= p.y <= b.top + b.height
  }

  /** The fields _prevPoint, _ellipseMultiplier and _lastStopped (a clock reading). */
  datatype TrailState = TrailState(prev: Point, multiplier: int, lastStopped: int)

  const Initial := TrailState(NoPoint, 0, 0)

  /**
   * One call's inputs: the cursor position, the whole seconds since
   * _lastStopped, and the clock reading DrawPoints stores when it draws.
   */
  datatype Sample = Sample(pos: Point, secondsSinceStop: int, now: int)

  /**
   * One call's outcome: the new state, whether the automatic export (with
   * deletePrevious = true) was requested, and the shapes appended after it.
   */
  datatype StepResult = StepResult(next: TrailState, exported: bool, drawn: seq<Element>)

  /** The segment between two screen points, in canvas coordinates. */
  function Segment(b: Bounds, from: Point, to: Point): Element {
    Line(from.x - b.left, from.y - b.top, to.x - b.left, to.y - b.top)
  }

  /**
   * The stop handling that opens DrawPoints: after a stop the multiplier
   * takes the seconds (and a stop of over 2 s requests the export);
   * otherwise a positive multiplier is drawn as a marker and reset.
   */
  function StopPhase(s: TrailState, b: Bounds, secondsSinceStop: int): (r: StepResult)
    ensures r.next.prev == s.prev && r.next.lastStopped == s.lastStopped
    ensures r.exported <==> secondsSinceStop > 2
    ensures |r.drawn| <= 1 && NoLine(r.drawn)
    ensures r.drawn != [] ==> secondsSinceStop <= 0 && r.next.multiplier == 0
    ensures r.drawn != [] ==> r.drawn == [Marker(s.prev.x - b.left, s.prev.y - b.top, s.multiplier)]
  {
    if secondsSinceStop > 0 then
      StepResult(s.(multiplier := secondsSinceStop), secondsSinceStop > 2, [])
    else if s.multiplier > 0 then
      StepResult(s.(multiplier := 0), false, [Marker(s.prev.x - b.left, s.prev.y - b.top, s.multiplier)])
    else
      StepResult(s, false, [])
  }

  /**
   * The bounds test and the line that follow it: the multiplier is not
   * touched, no marker or export comes from here, a sample outside the
   * window forgets the previous point, and at most one line is drawn, which
   * ends at the sample and makes it the previous point.
   */
  function MovePhase(s: TrailState, b: Bounds, pos: Point, now: int): (r: StepResult)
    ensures !r.exported && NoMarker(r.drawn) && |r.drawn| <= 1
    ensures r.next.multiplier == s.multiplier
    ensures !Inside(b, pos) ==> r.next.prev == NoPoint && r.drawn == []
    ensures r.drawn != [] ==>
      && r.drawn[0].Line? && r.drawn[0].x2 == pos.x - b.left && r.drawn[0].y2 == pos.y - b.top
      && r.next == TrailState(pos, s.multiplier, now)
    ensures r.drawn == [] ==> r.next.lastStopped == s.lastStopped
  {
    if !Inside(b, pos) then
      StepResult(s.(prev := NoPoint), false, [])
    else
      var prev := if s.prev.x < 0 && s.prev.y < 0 then pos else s.prev;
      if pos.x < 0 || pos.y < 0 || prev.x < 0 || prev.y < 0 then
        StepResult(s.(prev := prev), false, [])
      else
        StepResult(TrailState(pos, s.multiplier, now), false, [Segment(b, prev, pos)])
  }

  /** One DrawPoints call: the stop handling, then the bounds test and the line. */
  function Step(s: TrailState, b: Bounds, e: Sample): (r: StepResult)
    ensures r.exported <==> e.secondsSinceStop > 2
    ensures |r.drawn| <= 2
  {
    var stop := StopPhase(s, b, e.secondsSinceStop);
    var move := MovePhase(stop.next, b, e.pos, e.now);
    StepResult(move.next, stop.exported, stop.drawn + move.drawn)
  }

  /** The canvas after a call: an export first clears it, then the shapes are appended. */
  function After(canvas: seq<Element>, r: StepResult): (c: seq<Element>)
    ensures r.exported ==> c == r.drawn
    ensures !r.exported ==> |c| == |canvas| + |r.drawn|
  {
    (if r.exported then [] else canvas) + r.drawn
  }

  predicate NoLine(s: seq<Element>) {
    forall i :: 0 <= i < |s| ==> !s[i].Line?
  }

  predicate NoMarker(s: seq<Element>) {
    forall i :: 0 <= i < |s| ==> !s[i].Marker?
  }

  /** A marker is drawn before the line: a call appends its marker first and its line last. */
  lemma StepDrawsMarkerBeforeLine(s: TrailState, b: Bounds, e: Sample)
    ensures var r := Step(s, b, e);
      forall i, j :: 0 <= i < j < |r.drawn| ==> r.drawn[i].Marker? && r.drawn[j].Line?
  {
  }

  /** Without an export the canvas keeps its shapes, and the new ones follow them. */
  lemma AfterKeepsCanvas(canvas: seq<Element>, r: StepResult)
    requires !r.exported
    ensures After(canvas, r)[..|canvas|] == canvas && After(canvas, r)[|canvas|..] == r.drawn
  {
  }

  /** A sample outside the window forgets the previous point, draws no line and keeps _lastStopped. */
  lemma OutsideResets(s: TrailState, b: Bounds, e: Sample)
    requires !Inside(b, e.pos)
    ensures Step(s, b, e).next.prev == NoPoint
    ensures NoLine(Step(s, b, e).drawn)
    ensures Step(s, b, e).next.lastStopped == s.lastStopped
  {
  }

  /** The bounds test admits the right and bottom edges and nothing beyond them. */
  lemma InsideIsInclusive(b: Bounds, p: Point)
    requires b.width >= 0 && b.height >= 0
    ensures Inside(b, Point(b.left, b.top)) && Inside(b, Point(b.left + b.width, b.top + b.height))
    ensures b.top <= p.y <= b.top + b.height ==> Inside(b, Point(b.left + b.width, p.y))
    ensures b.left <= p.x <= b.left + b.width ==> Inside(b, Point(p.x, b.top + b.height))
    ensures p.x == b.left + b.width + 1 || p.y == b.top + b.height + 1 ==> !Inside(b, p)
  {
  }

  /**
   * The first in-window sample after a reset draws a zero-length line at
   * the sample and becomes the previous point.
   */
  lemma FirstSampleAfterReset(s: TrailState, b: Bounds, e: Sample)
    requires s.prev.x < 0 && s.prev.y < 0
    requires Inside(b, e.pos) && e.pos.x >= 0 && e.pos.y >= 0
    ensures var r := Step(s, b, e);
      && |r.drawn| >= 1
      && r.drawn[|r.drawn| - 1] == Segment(b, e.pos, e.pos)
      && r.next.prev == e.pos && r.next.lastStopped == e.now
  {
  }

  /**
   * An in-window sample with non-negative coordinates, following a
   * non-negative previous point, appends one line from that point to the
   * sample, makes the sample the previous point and resets _lastStopped.
   */
  lemma InsideDrawsSegment(s: TrailState, b: Bounds, e: Sample)
    requires s.prev.x >= 0 && s.prev.y >= 0
    requires Inside(b, e.pos) && e.pos.x >= 0 && e.pos.y >= 0
    ensures var r := Step(s, b, e);
      && r.drawn == StopPhase(s, b, e.secondsSinceStop).drawn + [Segment(b, s.prev, e.pos)]
      && r.next.prev == e.pos && r.next.lastStopped == e.now
  {
  }

  /**
   * A previous point with exactly one negative coordinate (possible only
   * when the window reaches into negative coordinates) blocks every line:
   * no line is drawn and the previous point stays, until a sample falls
   * outside the window.
   */
  lemma MixedSignPreviousBlocksLines(s: TrailState, b: Bounds, e: Sample)
    requires (s.prev.x < 0) != (s.prev.y < 0)
    requires Inside(b, e.pos)
    ensures NoLine(Step(s, b, e).drawn)
    ensures Step(s, b, e).next.prev == s.prev
    ensures Step(s, b, e).next.lastStopped == s.lastStopped
  {
  }

  /** After a stop the multiplier takes the seconds, no marker is drawn, and only a stop of over 2 s exports. */
  lemma StoppedSample(s: TrailState, b: Bounds, e: Sample)
    requires e.secondsSinceStop > 0
    ensures Step(s, b, e).next.multiplier == e.secondsSinceStop
    ensures NoMarker(Step(s, b, e).drawn)
    ensures Step(s, b, e).exported <==> e.secondsSinceStop > 2
  {
  }

  /**
   * Without a stop, a positive multiplier is drawn as exactly one marker
   * centred on the previous point as it stood before the sample, and reset
   * to 0; a non-positive one draws no marker. No export is requested.
   */
  lemma MovingSample(s: TrailState, b: Bounds, e: Sample)
    requires e.secondsSinceStop <= 0
    ensures var r := Step(s, b, e);
      && !r.exported
      && (s.multiplier > 0 ==>
            |r.drawn| >= 1 && r.drawn[0] == Marker(s.prev.x - b.left, s.prev.y - b.top, s.multiplier)
            && NoMarker(r.drawn[1..]) && r.next.multiplier == 0)
      && (s.multiplier <= 0 ==> NoMarker(r.drawn) && r.next.multiplier == s.multiplier)
  {
  }

  /** The marker is drawn before the bounds test, so a sample outside the window still draws it. */
  lemma MarkerBeforeBoundsTest(s: TrailState, b: Bounds, e: Sample)
    requires e.secondsSinceStop <= 0 && s.multiplier > 0
    requires !Inside(b, e.pos)
    ensures Step(s, b, e).drawn == [Marker(s.prev.x - b.left, s.prev.y - b.top, s.multiplier)]
  {
  }

  /** The previous point is the reset value or a point with non-negative coordinates. */
  predicate WellFormed(s: TrailState) {
    s.prev == NoPoint || (s.prev.x >= 0 && s.prev.y >= 0)
  }

  /** A window whose left and top edges are not negative keeps the previous point well formed. */
  lemma StepKeepsWellFormed(s: TrailState, b: Bounds, e: Sample)
    requires WellFormed(s)
    requires b.left >= 0 && b.top >= 0
    ensures WellFormed(Step(s, b, e).next)
  {
  }

  /**
   * Leaving the window and coming back never bridges the gap: any line the
   * re-entry sample draws has length zero, and one is drawn when the sample
   * has non-negative coordinates.
   */
  lemma NoSegmentAcrossExit(s: TrailState, b: Bounds, out: Sample, back: Sample)
    requires !Inside(b, out.pos)
    requires Inside(b, back.pos)
    ensures var r := Step(Step(s, b, out).next, b, back);
      && (forall i :: 0 <= i < |r.drawn| && r.drawn[i].Line? ==> r.drawn[i] == Segment(b, back.pos, back.pos))
      && (back.pos.x >= 0 && back.pos.y >= 0 ==> |r.drawn| > 0 && r.drawn[|r.drawn| - 1] == Segment(b, back.pos, back.pos))
  {
  }

  /** The state and canvas after a run of DrawPoints calls. */
  datatype Trace = Trace(state: TrailState, canvas: seq<Element>)

  /** Successive DrawPoints calls. */
  function Run(s: TrailState, b: Bounds, samples: seq<Sample>, canvas: seq<Element>): Trace
    decreases |samples|
  {
    if samples == [] then Trace(s, canvas)
    else
      var r := Step(s, b, samples[0]);
      Run(r.next, b, samples[1..], After(canvas, r))
  }

  /** As long as no sample requests an export, a run only adds to the canvas. */
  lemma {:induction false} RunKeepsCanvas(s: TrailState, b: Bounds, samples: seq<Sample>, canvas: seq<Element>)
    requires forall i :: 0 <= i < |samples| ==> samples[i].secondsSinceStop <= 2
    ensures |Run(s, b, samples, canvas).canvas| >= |canvas|
    ensures Run(s, b, samples, canvas).canvas[..|canvas|] == canvas
    decreases |samples|
  {
    if samples != [] {
      var r := Step(s, b, samples[0]);
      var c := After(canvas, r);
      AfterKeepsCanvas(canvas, r);
      assert forall i :: 0 <= i < |samples[1..]| ==> samples[1..][i] == samples[i + 1];
      RunKeepsCanvas(r.next, b, samples[1..], c);
      assert c[..|canvas|] == canvas;
    }
  }

  /** Samples of a cursor in motion: inside the window, not negative, and without a stop. */
  predicate Moving(b: Bounds, samples: seq<Sample>) {
    forall i :: 0 <= i < |samples| ==>
      Inside(b, samples[i].pos) && samples[i].pos.x >= 0 && samples[i].pos.y >= 0 &&
      samples[i].secondsSinceStop <= 0
  }

  /** The lines joining `from` to the first sample and each sample to the next. */
  function Chain(b: Bounds, from: Point, samples: seq<Sample>): (r: seq<Element>)
    ensures |r| == |samples|
    ensures forall i :: 0 <= i < |r| ==>
      r[i] == Segment(b, if i == 0 then from else samples[i - 1].pos, samples[i].pos)
    decreases |samples|
  {
    if samples == [] then []
    else [Segment(b, from, samples[0].pos)] + Chain(b, samples[0].pos, samples[1..])
  }

  /** From a drawn previous point, a moving cursor draws exactly the chain of its samples. */
  lemma {:induction false} RunDrawsChain(s: TrailState, b: Bounds, samples: seq<Sample>, canvas: seq<Element>)
    requires s.prev.x >= 0 && s.prev.y >= 0 && s.multiplier <= 0
    requires Moving(b, samples)
    ensures Run(s, b, samples, canvas).canvas == canvas + Chain(b, s.prev, samples)
    ensures samples != [] ==> Run(s, b, samples, canvas).state.prev == samples[|samples| - 1].pos
    ensures samples != [] ==> Run(s, b, samples, canvas).state.lastStopped == samples[|samples| - 1].now
    decreases |samples|
  {
    if samples != [] {
      var r := Step(s, b, samples[0]);
      assert r.next == TrailState(samples[0].pos, s.multiplier, samples[0].now);
      assert r.drawn == [Segment(b, s.prev, samples[0].pos)];
      var rest := samples[1..];
      assert Moving(b, rest) by {
        forall i | 0 <= i < |rest| ensures Inside(b, rest[i].pos) {
          assert rest[i] == samples[i + 1];
        }
      }
      RunDrawsChain(r.next, b, rest, After(canvas, r));
      assert canvas + [Segment(b, s.prev, samples[0].pos)] + Chain(b, samples[0].pos, rest)
          == canvas + Chain(b, s.prev, samples);
      if rest != [] {
        assert rest[|rest| - 1] == samples[|samples| - 1];
      }
    }
  }

  /**
   * After a reset, n samples of a moving cursor draw n lines: a zero-length
   * one at the first sample, then one joining each sample to the next.
   */
  lemma {:induction false} TrailAfterReset(s: TrailState, b: Bounds, samples: seq<Sample>, canvas: seq<Element>)
    requires s.prev == NoPoint && s.multiplier <= 0
    requires samples != [] && Moving(b, samples)
    ensures var c := Run(s, b, samples, canvas).canvas;
      && c == canvas + Chain(b, samples[0].pos, samples)
      && |c| == |canvas| + |samples|
      && c[|canvas|] == Segment(b, samples[0].pos, samples[0].pos)
  {
    var r := Step(s, b, samples[0]);
    assert r.next == TrailState(samples[0].pos, s.multiplier, samples[0].now);
    assert r.drawn == [Segment(b, samples[0].pos, samples[0].pos)];
    var rest := samples[1..];
    assert Moving(b, rest) by {
      forall i | 0 <= i < |rest| ensures Inside(b, rest[i].pos) {
        assert rest[i] == samples[i + 1];
      }
    }
    RunDrawsChain(r.next, b, rest, After(canvas, r));
    assert canvas + [Segment(b, samples[0].pos, samples[0].pos)] + Chain(b, samples[0].pos, rest)
        == canvas + Chain(b, samples[0].pos, samples);
  }
}
