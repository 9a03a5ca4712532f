# Corrolinx drawing core in Dafny

Corrolinx is a document/view drawing program. A drawing document holds an
ordered list of segments. A segment is one freehand stroke: an ordered list of
lines, each given by four integer coordinates `x1 y1 x2 y2`. A document is
saved to and loaded from a `.drw` text file. The canvas turns left-button
mouse drags into a new segment and hands it to the document's command
processor when the button is released. The view draws every line of every
segment.

The model has these modules:

- `TextFormat` (`text_format.dfy`) is the decimal text layer under the file format.
  - `IntText` is what `stream << n` writes.
  - `Lex` is the integers that successive `stream >> n` extractions read back. Leading whitespace (space, tab, newline, carriage return, vertical tab, form feed) is skipped, an optional sign is taken, then the longest run of digits. Text that starts no number ends the readable integers.
- `Streams` (`streams.dfy`) holds the two stream objects.
  - An output stream is the text written so far.
  - An input stream is a `Cursor`: the integers still to be read and a sticky error flag. Once the stream has failed, every read yields 0 and leaves it failed.
- `Doodle` (`doodle.dfy`) holds the `Line` and `Segment` values and the segment's own save and load.
  - It specifies the format twice: the exact text (`DrawingText`) and the integers in it (`DrawingTokens`).
  - It specifies reading step by step on a cursor (`ReadSegment`, `ReadSegments`, `LoadSegments`).
  - It proves the round trip and the error paths.
- `DrawingDoc` (`drawing_doc.dfy`) is the document class. It covers the segment list, the modified flag, a counter of view notifications and the command processor. Its methods are save, load, add and pop.
- `DrawingViews` (`drawing_view.dfy`) covers the rest of the drawing side:
  - the mouse capture as a function `Handle` of the capture state and one event, with lemmas about runs of events;
  - the view's drawing traversal and cut command;
  - the canvas class with its view association.

Three behaviours of the code are worth knowing:

- **Truncated or garbled files partly load.** Only a negative segment count is rejected (`Corrolinx/corrolinx_doc.cpp:80-89`). A stream that runs out or turns to garbage after a non-negative count still appends that many segments. Once the stream has failed, the remaining segments are empty ones (`Doodle.TruncatedAfterCount`, `Doodle.ReadSegmentsExhausted`).
- **Saved files end with an extra newline after every segment** (`Corrolinx/corrolinx_doc.cpp:62`). A drawing with one segment of lines (0,0,10,10) and (10,10,20,0) saves as `"1\n2\n0 0 10 10\n10 10 20 0\n\n"` (`Doodle.ExampleText`).
- **`LoadObject` does not change the modified flag.**

A segment that loads with a negative line count is an empty segment, exactly as with a zero count.

Two consequences of the capture code are proved:

- **An empty segment is never submitted.** The segment being drawn is never empty (`DrawingViews.HandleKeepsWellFormed`). So the emptiness test before submitting never fails (`DrawingViews.ReleaseSubmitsCapture`).
- **A drag at (-1, -1) is lost as a starting point.** The previous mouse position starts as the toolkit's default position (-1, -1), which also serves as "no position yet". A drag whose position really is (-1, -1) is therefore forgotten as a starting point (`DrawingViews.DragAtDefaultPositionIsForgotten`).

## Model

| member | source | states |
|---|---|---|
| `Streams.InputStream.Extract` | Corrolinx/corrolinx_doc.cpp:165-166 | One `stream >> n` takes the next integer. On a failed or exhausted stream it yields 0 and leaves the stream failed. |
| `Streams.InputStream.SetError` | Corrolinx/corrolinx_doc.cpp:83-87 | Putting the stream into its error state keeps the unread input and sets the error flag. |
| `TextFormat.ScanIntText` | Corrolinx/corrolinx_doc.cpp:147-151 | Reading back a written integer gives the same integer. The read consumes exactly the integer's text when a non-digit follows it. |
| `Doodle.WriteCount` | Corrolinx/corrolinx_doc.cpp:141-142 | A count is written as its decimal text and a newline. |
| `Doodle.WriteLine` | Corrolinx/corrolinx_doc.cpp:146-151 | A line is written as `x1 y1 x2 y2` separated by single spaces and ended by a newline. |
| `Doodle.Segment.SaveObject` | Corrolinx/corrolinx_doc.cpp:133-155 | A segment's text is its line count on a line of its own, then one row per line, in order. |
| `Doodle.Segment.LoadObject` | Corrolinx/corrolinx_doc.cpp:157-180 | Reads a count, then that many lines (none for a count of zero or less). The lines are appended after the segment's existing lines. The stream ends where `ReadSegment` says. |
| `Doodle.ReadLines` | Corrolinx/corrolinx_doc.cpp:168-177 | The line loop yields exactly as many lines as it runs iterations, even on a failed stream. |
| `Doodle.ReadSegments` | Corrolinx/corrolinx_doc.cpp:91-96 | The segment loop yields exactly as many segments as it runs iterations. |
| `Doodle.ExampleText` | Corrolinx/corrolinx_doc.cpp:56-63 | One segment with lines (0,0,10,10) and (10,10,20,0) saves as `"1\n2\n0 0 10 10\n10 10 20 0\n\n"`. |
| `Doodle.LexDrawing` | Corrolinx/corrolinx_doc.cpp:46-66 | The saved text reads back as the segment count, then each segment's line count and coordinates, in order, and nothing else. |
| `Doodle.ReadLineRoundTrip` | Corrolinx/corrolinx_doc.cpp:170-175 | Reading four integers written for a line gives that line back and leaves the stream good. |
| `Doodle.ReadLinesRoundTrip` | Corrolinx/corrolinx_doc.cpp:168-177 | Reading the integers of a list of lines gives the same lines in the same order. |
| `Doodle.ReadSegmentRoundTrip` | Corrolinx/corrolinx_doc.cpp:157-180 | Reading a segment's integers gives the same segment and consumes exactly them. |
| `Doodle.ReadSegmentsRoundTrip` | Corrolinx/corrolinx_doc.cpp:91-96 | Reading the integers of a list of segments gives the same segments in the same order. |
| `Doodle.LoadRoundTrip` | Corrolinx/corrolinx_doc.cpp:68-99 | Loading a drawing's integers yields its segments and leaves the stream good, whatever integers follow. |
| `Doodle.SaveLoadRoundTrip` | Corrolinx/corrolinx_doc.cpp:46-99 | Loading the text a drawing saves as yields the same segments and lines, in order, with the stream good and fully read. |
| `Doodle.NegativeSegmentCount` | Corrolinx/corrolinx_doc.cpp:78-89 | A negative segment count yields no segments and leaves the stream in its error state. |
| `Doodle.SegmentCountRead` | Corrolinx/corrolinx_doc.cpp:91-96 | A non-negative segment count yields exactly that many segments. |
| `Doodle.NonPositiveLineCount` | Corrolinx/corrolinx_doc.cpp:165-177 | A line count of zero or less gives an empty segment and reads no coordinates. |
| `Doodle.ReadSegmentsExhausted` | Corrolinx/corrolinx_doc.cpp:91-96 | Once the stream has failed or run out, every further segment loads as empty and the stream stays failed. |
| `Doodle.TruncatedAfterCount` | Corrolinx/corrolinx_doc.cpp:78-96 | A file that ends right after a segment count `k` still appends `k` empty segments. |
| `DrawingDoc.CommandProcessor.Submit` | Corrolinx/corrolinx_view.cpp:222-223 | A submitted command is recorded after the earlier ones. |
| `DrawingDoc.DrawingDocument.SaveObject` | Corrolinx/corrolinx_doc.cpp:46-66 | The document's text is its segment count on a line of its own, then every segment's text in order, each followed by an extra newline. |
| `DrawingDoc.DrawingDocument.SaveSegments` | Corrolinx/corrolinx_doc.cpp:59-63 | The save loop writes every segment in order, each followed by a newline. |
| `DrawingDoc.SaveSegment` | Corrolinx/corrolinx_doc.cpp:61-62 | One pass of the save loop writes the segment's text and one newline. |
| `DrawingDoc.DrawingDocument.LoadObject` | Corrolinx/corrolinx_doc.cpp:68-99 | Loading appends the segments `LoadSegments` reads after the existing ones and changes nothing else in the document. With the round-trip lemmas, loading saved text restores the segments. A negative count fails the stream and appends nothing. |
| `DrawingDoc.DrawingDocument.Modify` | Corrolinx/corrolinx_doc.cpp:103 | Sets the modified flag. |
| `DrawingDoc.DrawingDocument.UpdateAllViews` | Corrolinx/corrolinx_doc.cpp:104 | Notifies the views once more. |
| `DrawingDoc.DrawingDocument.DoUpdate` | Corrolinx/corrolinx_doc.cpp:101-105 | Marks the document modified and notifies the views exactly once. |
| `DrawingDoc.DrawingDocument.AddDoodleSegment` | Corrolinx/corrolinx_doc.cpp:107-112 | Appends exactly one segment at the end, marks the document modified and notifies the views. |
| `DrawingDoc.DrawingDocument.PopLastSegment` | Corrolinx/corrolinx_doc.cpp:114-127 | On an empty document it returns false and changes nothing. Otherwise it returns true, copies the last segment into the target if there is one, removes only that segment, marks the document modified and notifies the views. |
| `DrawingDoc.AddThenPop` | Corrolinx/corrolinx_doc.cpp:107-127 | Adding a segment and then popping restores the previous list and hands back the added segment. |
| `DrawingDoc.SaveThenLoad` | Corrolinx/corrolinx_doc.cpp:46-99 | Loading a document's saved text into a new document gives the same segments, and the stream ends good and fully read. |
| `DrawingViews.Handle` | Corrolinx/corrolinx_view.cpp:213-242 | One mouse event. Every event sets the previous position to the event's position, and after a release nothing is being drawn. A segment is submitted exactly when a non-empty one is being drawn at a release, and it is that segment. A drag from a known position appends exactly one line from that position to the event's, creating the segment if needed. A drag from the default position, or any other event, leaves the segment being drawn as it was. |
| `DrawingViews.HandleKeepsWellFormed` | Corrolinx/corrolinx_view.cpp:232-238 | No event makes the segment being drawn an empty one. |
| `DrawingViews.ReleaseSubmitsCapture` | Corrolinx/corrolinx_view.cpp:214-226 | From a well-formed state, a release while a segment is being drawn always submits that segment. |
| `DrawingViews.RunSubmitsNonEmpty` | Corrolinx/corrolinx_view.cpp:214-228 | Over any series of events from a well-formed state, no empty segment is submitted, and the state stays well formed. |
| `DrawingViews.NoDragNoSegment` | Corrolinx/corrolinx_view.cpp:232-238 | Without a drag event no segment is started and nothing is submitted. |
| `DrawingViews.DragsDrawPolyline` | Corrolinx/corrolinx_view.cpp:232-242 | Dragging through points from a known position builds the polyline from that position through each point in order, and submits nothing. |
| `DrawingViews.DragAtDefaultPositionIsForgotten` | Corrolinx/corrolinx_view.cpp:232 | After a drag reported at (-1, -1), the next drag adds no line. |
| `DrawingViews.AllLinesAppend` | Corrolinx/corrolinx_view.cpp:64-77 | Drawing two lists of segments one after the other draws the lines of the first list, then those of the second. |
| `DrawingViews.AllLinesAround` | Corrolinx/corrolinx_view.cpp:64-77 | Every segment's lines are drawn once, as one block in their own order. The block comes after the lines of all earlier segments and before those of all later ones. |
| `DrawingViews.DrawingView.OnDraw` | Corrolinx/corrolinx_view.cpp:58-78 | The lines drawn are all lines of all segments: segments in list order, lines in segment order. |
| `DrawingViews.DrawingView.OnCut` | Corrolinx/corrolinx_view.cpp:108-113 | Submits one remove-last-segment command to the document's command processor. |
| `DrawingViews.Canvas.constructor` | Corrolinx/corrolinx_view.cpp:171-176 | A new canvas has the given view. No segment is being drawn, and the previous position is the default (-1, -1). |
| `DrawingViews.Canvas.SetView` | Corrolinx/corrolinx_view.h:35-40 | Requires the canvas to have no view. Afterwards its view is the one given. |
| `DrawingViews.Canvas.ResetView` | Corrolinx/corrolinx_view.h:42-47 | Requires the canvas to have a view. Afterwards it has none, so `OnMouseEvent` ignores events. |
| `DrawingViews.Canvas.OnDraw` | Corrolinx/corrolinx_view.cpp:193-197 | With a view, draws what the view draws; without one, draws nothing. |
| `DrawingViews.Canvas.OnMouseEvent` | Corrolinx/corrolinx_view.cpp:201-243 | Without a view nothing changes. Otherwise the capture state changes as `Handle` says. A submitted segment becomes an add-segment command and marks the document modified. The handler itself does not touch the segment list or the notifications; running the submitted command is not modelled. |

## Left out

- The text document and its view are not part of this model. They delegate everything to a native text control whose behaviour is not visible.
- The application shell in `Corrolinx/corrolinx.cpp` is not part of this model. It covers the document manager, templates, frames, menus and the file history.
- The add- and remove-segment command classes and the command processor's undo/redo stack are declared in `corrolinx_doc.h`, which is not part of this model. `CommandProcessor.Submit` only records the command; it does not run it.
- `DoodleSegment::AddLine` and the `DoodleLine` declaration are in `corrolinx_doc.h` too. Adding a line is modelled as appending `Line(last.x, last.y, pt.x, pt.y)`, and a line read from a failed stream has the coordinate 0.
- Reading follows the standard iostream build of the program. The `wxTextInputStream`/`wxTextOutputStream` build is not modelled, nor is the base `wxDocument::SaveObject`/`LoadObject` call, which is treated as doing nothing.
- `TextFormat.ScanNumber` does not model the 32-bit range of `wxInt32` and `int`. Integers are unbounded, so an out-of-range number in a file, and a count above 2^31 - 1 when saving, are not modelled.
- `Doodle.Segment.LoadObject` returns the loaded segment as a new value. It does not update a `DoodleSegment` object in place, because segments are stored by value in the document's list.
- The warning logged for a negative segment count, drawing through the device context (pens, cursor, scrolling, background colour) and the view and frame lifecycle are left out. The view's drawing is modelled as the list of lines it draws.
- Mouse events are modelled as release, drag or other, each with its logical position. Converting device coordinates to logical ones is left out.
