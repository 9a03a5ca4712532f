/**
 * The drawing view and its canvas.
 *
 * The canvas turns mouse drags into a segment: while the left button is
 * dragged, each move adds one line from the previous mouse position to the
 * current one; releasing the button hands the segment to the document's
 * command processor as an add-segment command. The previous position starts
 * out as the toolkit's default position (-1, -1), which doubles as "no
 * position yet".
 *
 * `Handle` is one mouse event as a function of the capture state; the
 * canvas's `OnMouseEvent` is proved to change its fields exactly as `Handle`
 * says, and the lemmas about `Handle` and `Run` are the properties of the
 * capture that the canvas therefore has.
 */
module DrawingViews {
  import opened Wrappers
  import opened Doodle
  import opened DrawingDoc

  datatype Point = Point(x: int, y: int)

  /** The toolkit's default position, used as "no previous position". */
  const DefaultPosition := Point(-1, -1)

  /** A mouse event at a logical position: a left-button release, a drag, or anything else. */
  datatype MouseEvent = LeftUp(pos: Point) | Dragging(pos: Point) | OtherMouse(pos: Point)

  /** The canvas's capture state: the segment being drawn, if any, and the previous mouse position. */
  datatype Capture = Capture(current: Option<Segment>, lastPos: Point)

  /** The capture state after an event, and the segment submitted by it, if any. */
  datatype Reaction = Reaction(next: Capture, submitted: Option<Segment>)

  function LineBetween(a: Point, b: Point): Line {
    Line(a.x, a.y, b.x, b.y)
  }

  /** The lines of the segment being drawn; none when there is none. */
  function LinesOf(current: Option<Segment>): seq<Line> {
    if current.Some? then current.value.lines else []
  }

  /** The segment being drawn is never an empty one. */
  predicate WellFormed(c: Capture) {
    c.current.Some? ==> !c.current.value.IsEmpty()
  }

  /** The capture state of a newly made canvas. */
  const Initial := Capture(None, DefaultPosition)

  /** One mouse event. */
  function Handle(c: Capture, e: MouseEvent): (r: Reaction)
    ensures r.next.lastPos == e.pos
    ensures e.LeftUp? ==> r.next.current == None
    ensures r.submitted.Some? <==> e.LeftUp? && c.current.Some? && !c.current.value.IsEmpty()
    ensures r.submitted.Some? ==> r.submitted == c.current && !r.submitted.value.IsEmpty()
    ensures e.Dragging? && c.lastPos != DefaultPosition
            ==> r.next.current == Some(Segment(LinesOf(c.current) + [LineBetween(c.lastPos, e.pos)]))
    ensures e.Dragging? && c.lastPos == DefaultPosition ==> r.next.current == c.current
    ensures e.OtherMouse? ==> r.next.current == c.current
  {
    var ended := e.LeftUp? && c.current.Some?;
    var submitted := if ended && !c.current.value.IsEmpty() then c.current else None;
    var afterUp := if ended then None else c.current;
    var afterDrag :=
      if c.lastPos != DefaultPosition && e.Dragging? then
        var segment := if afterUp.Some? then afterUp.value else Segment([]);
        Some(Segment(segment.lines + [LineBetween(c.lastPos, e.pos)]))
      else afterUp;
    Reaction(Capture(afterDrag, e.pos), submitted)
  }

  /** A series of mouse events: the final capture state and the segments submitted, in order. */
  function Run(c: Capture, es: seq<MouseEvent>): (Capture, seq<Segment>) {
    if es == [] then (c, [])
    else
      var prev := Run(c, es[..|es| - 1]);
      var r := Handle(prev.0, es[|es| - 1]);
      (r.next, prev.1 + (if r.submitted.Some? then [r.submitted.value] else []))
  }

  /** No event makes the segment being drawn an empty one. */
  lemma {:induction false} HandleKeepsWellFormed(c: Capture, e: MouseEvent)
    requires WellFormed(c)
    ensures WellFormed(Handle(c, e).next)
  {
  }

  /**
   * From a well-formed state, releasing the button while a segment is being
   * drawn always submits it: the emptiness test before submitting never fails.
   */
  lemma {:induction false} ReleaseSubmitsCapture(c: Capture, p: Point)
    requires WellFormed(c) && c.current.Some?
    ensures Handle(c, LeftUp(p)).submitted == c.current
  {
  }

  /** Over any series of events, no empty segment is ever submitted and the state stays well formed. */
  lemma {:induction false} RunSubmitsNonEmpty(c: Capture, es: seq<MouseEvent>)
    requires WellFormed(c)
    ensures WellFormed(Run(c, es).0)
    ensures forall i :: 0 <= i < |Run(c, es).1| ==> !Run(c, es).1[i].IsEmpty()
  {
    if es != [] {
      RunSubmitsNonEmpty(c, es[..|es| - 1]);
      HandleKeepsWellFormed(Run(c, es[..|es| - 1]).0, es[|es| - 1]);
    }
  }

  predicate NoDrags(es: seq<MouseEvent>) {
    forall i :: 0 <= i < |es| ==> !es[i].Dragging?
  }

  /** Without a drag no segment is started, so nothing is submitted. */
  lemma {:induction false} NoDragNoSegment(lastPos: Point, es: seq<MouseEvent>)
    requires NoDrags(es)
    ensures Run(Capture(None, lastPos), es).0.current == None
    ensures Run(Capture(None, lastPos), es).1 == []
  {
    if es != [] {
      NoDragNoSegment(lastPos, es[..|es| - 1]);
    }
  }

  function Drags(ps: seq<Point>): (es: seq<MouseEvent>)
    ensures |es| == |ps|
  {
    if ps == [] then [] else Drags(ps[..|ps| - 1]) + [Dragging(ps[|ps| - 1])]
  }

  /** The last of the points `start, ps[0], ps[1], ...`. */
  function LastPoint(start: Point, ps: seq<Point>): Point {
    if ps == [] then start else ps[|ps| - 1]
  }

  /** The polyline through `start, ps[0], ps[1], ...`: one line per point of `ps`. */
  function Polyline(start: Point, ps: seq<Point>): (ls: seq<Line>)
    ensures |ls| == |ps|
  {
    if ps == [] then []
    else
      var init := ps[..|ps| - 1];
      Polyline(start, init) + [LineBetween(LastPoint(start, init), ps[|ps| - 1])]
  }

  /**
   * Dragging through the points `ps`, starting from a known position, draws
   * the polyline from that position through every point, in order, provided
   * no point but the last is the default position.
   */
  lemma {:induction false} DragsDrawPolyline(start: Point, ps: seq<Point>)
    requires start != DefaultPosition
    requires forall i :: 0 <= i < |ps| - 1 ==> ps[i] != DefaultPosition
    ensures Run(Capture(None, start), Drags(ps)).0
         == Capture(if ps == [] then None else Some(Segment(Polyline(start, ps))), LastPoint(start, ps))
    ensures Run(Capture(None, start), Drags(ps)).1 == []
  {
    if ps != [] {
      var init := ps[..|ps| - 1];
      assert Drags(ps)[..|ps| - 1] == Drags(init);
      DragsDrawPolyline(start, init);
    }
  }

  /**
   * A drag reported at (-1, -1) is taken for "no previous position": the
   * next drag starts no line from it.
   */
  lemma {:induction false} DragAtDefaultPositionIsForgotten(c: Capture, q: Point)
    requires c.lastPos != DefaultPosition
    ensures Handle(Handle(c, Dragging(DefaultPosition)).next, Dragging(q)).next.current
         == Handle(c, Dragging(DefaultPosition)).next.current
  {
  }

  /** All lines of all segments, segment by segment and within a segment in order. */
  function AllLines(ss: seq<Segment>): seq<Line> {
    if ss == [] then [] else AllLines(ss[..|ss| - 1]) + ss[|ss| - 1].lines
  }

  lemma {:induction false} AllLinesAppend(a: seq<Segment>, b: seq<Segment>)
    ensures AllLines(a + b) == AllLines(a) + AllLines(b)
  {
    if b == [] {
      assert a + b == a;
    } else {
      var ab := a + b;
      assert ab[..|ab| - 1] == a + b[..|b| - 1];
      AllLinesAppend(a, b[..|b| - 1]);
    }
  }

  /**
   * Every segment's lines are drawn exactly once, as one block in their own
   * order, after the lines of the segments before it and before the lines
   * of the segments after it.
   */
  lemma {:induction false} AllLinesAround(ss: seq<Segment>, i: nat)
    requires i < |ss|
    ensures AllLines(ss) == AllLines(ss[..i]) + ss[i].lines + AllLines(ss[i + 1..])
  {
    var before, upTo, after := ss[..i], ss[..i + 1], ss[i + 1..];
    assert ss == upTo + after;
    AllLinesAppend(upTo, after);
    assert upTo[..i] == before && upTo[i] == ss[i];
    assert AllLines(upTo) == AllLines(before) + ss[i].lines;
  }

  class DrawingView {
    const document: DrawingDocument

    constructor (doc: DrawingDocument)
      ensures document == doc
    {
      document := doc;
    }

    /** Draws every line of every segment; `drawn` is the lines in the order they are drawn. */
    method OnDraw() returns (drawn: seq<Line>)
      ensures drawn == AllLines(document.segments)
    {
      var segments := document.segments;
      drawn := [];
      var i := 0;
      while i < |segments|
        invariant 0 <= i <= |segments|
        invariant drawn == AllLines(segments[..i])
      {
        var lines := segments[i].lines;
        var j := 0;
        while j < |lines|
          invariant 0 <= j <= |lines|
          invariant drawn == AllLines(segments[..i]) + lines[..j]
        {
          drawn := drawn + [lines[j]];
          assert lines[..j + 1] == lines[..j] + [lines[j]];
          j := j + 1;
        }
        assert lines[..j] == lines;
        assert segments[..i + 1][..i] == segments[..i];
        i := i + 1;
      }
      assert segments[..i] == segments;
    }

    /** Submits a command removing the document's last segment. */
    method OnCut()
      modifies document.processor
      ensures document.processor.submitted == old(document.processor.submitted) + [RemoveLastSegment]
    {
      document.processor.Submit(RemoveLastSegment);
    }
  }

  class Canvas {
    /** The view the canvas shows, or none. */
    var view: DrawingView?
    /** The segment being drawn; none when no segment is being drawn. */
    var current: Option<Segment>
    /** The previous mouse position. */
    var lastPos: Point

    constructor (v: DrawingView?)
      ensures view == v && State() == Initial
    {
      view := v;
      current := None;
      lastPos := DefaultPosition;
    }

    function State(): Capture
      reads this
    {
      Capture(current, lastPos)
    }

    /** Attaches the canvas to a view; it must not already have one. */
    method SetView(v: DrawingView?)
      requires view == null
      modifies this`view
      ensures view == v
    {
      view := v;
    }

    /** Detaches the canvas from its view; it must have one. */
    method ResetView()
      requires view != null
      modifies this`view
      ensures view == null
    {
      view := null;
    }

    /** Repaints: the view draws, or nothing is drawn when there is no view. */
    method OnDraw() returns (drawn: seq<Line>)
      ensures drawn == if view == null then [] else AllLines(view.document.segments)
    {
      if view != null {
        drawn := view.OnDraw();
      } else {
        drawn := [];
      }
    }

    /**
     * One mouse event. Without a view nothing changes. Otherwise the capture
     * state changes as `Handle` says; a segment it submits goes to the
     * document's command processor as an add-segment command and marks the
     * document modified. The handler itself leaves the segment list and the
     * view notifications alone; what the submitted command then does is not
     * part of this model.
     */
    method OnMouseEvent(e: MouseEvent)
      modifies this`current, this`lastPos
      modifies if view == null then {} else {view.document, view.document.processor}
      ensures view == null ==> current == old(current) && lastPos == old(lastPos)
      ensures view != null ==> State() == Handle(old(State()), e).next
      ensures view != null ==>
        var submitted := Handle(old(State()), e).submitted;
        && view.document.processor.submitted
           == old(view.document.processor.submitted) + (if submitted.Some? then [AddSegment(submitted.value)] else [])
        && view.document.modified == (old(view.document.modified) || submitted.Some?)
        && view.document.segments == old(view.document.segments)
        && view.document.updates == old(view.document.updates)
    {
      if view == null {
        return;
      }
      var doc := view.document;
      var pt := e.pos;
      if current.Some? && e.LeftUp? {
        if !current.value.IsEmpty() {
          doc.processor.Submit(AddSegment(current.value));
          doc.Modify(true);
        }
        current := None;
      }
      if lastPos != DefaultPosition && e.Dragging? {
        if current.None? {
          current := Some(Segment([]));
        }
        current := Some(Segment(current.value.lines + [LineBetween(lastPos, pt)]));
      }
      lastPos := pt;
    }
  }

}
