/**
 * The drawing document: an ordered list of segments, a modified flag, the
 * notifications it sends its views, and the command processor that edits are
 * submitted to.
 *
 * Saving and loading go through the streams of module Streams and are
 * specified by the encoding functions of module Doodle, so the round-trip and
 * error-path lemmas proved there are statements about these methods too.
 */
module DrawingDoc {
  import opened Streams
  import opened Doodle

  /** An edit handed to the document's command processor. */
  datatype Command = AddSegment(segment: Segment) | RemoveLastSegment

  /**
   * The document's command processor. What a command does once submitted
   * (and undo/redo) is not part of this model: the processor only records
   * the commands it was given, in order.
   */
  class CommandProcessor {
    var submitted: seq<Command>

    constructor ()
      ensures submitted == []
    {
      submitted := [];
    }

    method Submit(c: Command)
      modifies this
      ensures submitted == old(submitted) + [c]
    {
      submitted := submitted + [c];
    }
  }

  /** A place a segment can be copied into: the out-parameter of PopLastSegment. */
  class SegmentSlot {
    var segment: Segment

    constructor ()
      ensures segment == Segment([])
    {
      segment := Segment([]);
    }
  }

  class DrawingDocument {
    var segments: seq<Segment>
    /** The document's modified ("dirty") flag. */
    var modified: bool
    /** How many times the views were told to update. */
    var updates: nat
    const processor: CommandProcessor

    constructor ()
      ensures segments == [] && !modified && updates == 0
      ensures fresh(processor) && processor.submitted == []
    {
      segments := [];
      modified := false;
      updates := 0;
      processor := new CommandProcessor();
    }

    /**
     * Writes the segment count and a newline, then every segment in order,
     * each followed by one more newline.
     */
    method SaveObject(out: OutputStream)
      modifies out
      ensures out.text == old(out.text) + DrawingText(segments)
    {
      WriteCount(out, |segments|);
      SaveSegments(out);
    }

    /** The loop of SaveObject: every segment in order, each followed by one more newline. */
    method SaveSegments(out: OutputStream)
      modifies out
      ensures out.text == old(out.text) + SegmentsText(segments)
    {
      var all := segments;
      var n := 0;
      while n < |all|
        invariant 0 <= n <= |all|
        invariant out.text == old(out.text) + SegmentsText(all[..n])
      {
        SaveSegment(out, all[n]);
        assert all[..n + 1][..n] == all[..n];
        n := n + 1;
      }
      assert all[..n] == all;
    }

    /**
     * Reads a segment count. A negative count puts the stream into its error
     * state and leaves the document as it was; otherwise that many segments
     * are read, each into a fresh segment, and appended after the segments
     * already present.
     */
    method LoadObject(inp: InputStream)
      modifies this`segments, inp
      ensures segments == old(segments) + LoadSegments(old(inp.cursor)).value
      ensures inp.cursor == LoadSegments(old(inp.cursor)).cursor
    {
      var count := inp.Extract();
      if count < 0 {
        inp.SetError();
        return;
      }
      ghost var start := inp.cursor;
      ghost var before := segments;
      assert before + ReadSegments(start, 0).value == before;
      var n := 0;
      while n < count
        invariant 0 <= n <= count
        invariant segments == before + ReadSegments(start, n).value
        invariant inp.cursor == ReadSegments(start, n).cursor
      {
        var segment := Segment([]);
        segment := segment.LoadObject(inp);
        assert segment == ReadSegment(ReadSegments(start, n).cursor).value;
        segments := segments + [segment];
        n := n + 1;
      }
    }

    method Modify(flag: bool)
      modifies this`modified
      ensures modified == flag
    {
      modified := flag;
    }

    /** Tells every view of the document to refresh. */
    method UpdateAllViews()
      modifies this`updates
      ensures updates == old(updates) + 1
    {
      updates := updates + 1;
    }

    /** Marks the document modified and notifies its views. */
    method DoUpdate()
      modifies this`modified, this`updates
      ensures modified && updates == old(updates) + 1
    {
      Modify(true);
      UpdateAllViews();
    }

    /** Appends one segment at the end, marks the document modified and notifies its views. */
    method AddDoodleSegment(segment: Segment)
      modifies this`segments, this`modified, this`updates
      ensures segments == old(segments) + [segment]
      ensures modified && updates == old(updates) + 1
    {
      segments := segments + [segment];
      DoUpdate();
    }

    /**
     * Removes the last segment, copying it into `target` when one is given.
     * On an empty document nothing happens and the result is false.
     */
    method PopLastSegment(target: SegmentSlot?) returns (ok: bool)
      modifies this`segments, this`modified, this`updates, target
      ensures ok <==> old(segments) != []
      ensures !ok ==> segments == old(segments) && modified == old(modified) && updates == old(updates)
      ensures !ok && target != null ==> target.segment == old(target.segment)
      ensures ok ==> segments == old(segments)[..|old(segments)| - 1]
      ensures ok ==> modified && updates == old(updates) + 1
      ensures ok && target != null ==> target.segment == old(segments)[|old(segments)| - 1]
    {
      if segments == [] {
        return false;
      }
      if target != null {
        target.segment := segments[|segments| - 1];
      }
      segments := segments[..|segments| - 1];
      DoUpdate();
      return true;
    }
  }

  /** One segment of a saved document: its own encoding and one more newline. */
  method SaveSegment(out: OutputStream, segment: Segment)
    modifies out
    ensures out.text == old(out.text) + SegmentText(segment) + "\n"
  {
    segment.SaveObject(out);
    out.WriteChar('\n');
  }

  /** Adding a segment and then popping the last one restores the list and hands back that segment. */
  method AddThenPop(doc: DrawingDocument, segment: Segment) returns (popped: Segment)
    modifies doc
    ensures doc.segments == old(doc.segments)
    ensures popped == segment
  {
    var slot := new SegmentSlot();
    doc.AddDoodleSegment(segment);
    ghost var grown := doc.segments;
    var ok := doc.PopLastSegment(slot);
    popped := slot.segment;
    assert grown[..|grown| - 1] == old(doc.segments);
  }

  /**
   * Saving a document and loading the text into a new document gives a
   * document with the same segments, and the stream ends in the good state.
   */
  method SaveThenLoad(doc: DrawingDocument) returns (copy: DrawingDocument, inp: InputStream)
    ensures copy.segments == doc.segments
    ensures inp.cursor == Cursor([], false)
  {
    var out := new OutputStream();
    doc.SaveObject(out);
    inp := new InputStream(out.text);
    copy := new DrawingDocument();
    assert out.text == DrawingText(doc.segments);
    copy.LoadObject(inp);
    SaveLoadRoundTrip(doc.segments);
    assert copy.segments == [] + doc.segments;
  }
}
