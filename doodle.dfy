/**
 * The drawing data model and its `.drw` text encoding.
 *
 * A line is four integer coordinates; a segment (one freehand stroke) is an
 * ordered list of lines; a drawing is an ordered list of segments. A drawing
 * is written as its segment count and a newline, then for every segment its
 * line count and a newline, one `x1 y1 x2 y2` row per line, and one more
 * newline closing the segment.
 *
 * The encoding is given twice: as the exact text written (`...Text`) and as
 * the integers that text holds (`...Tokens`). Reading is specified on an
 * input stream's `Cursor` by `ReadLines`, `ReadSegment`, `ReadSegments` and
 * `LoadSegments`, which follow the reading loops step by step, including
 * what they do on a failed stream and on a negative count.
 */
module Doodle {
  import opened TextFormat
  import opened Streams

  datatype Line = Line(x1: int, y1: int, x2: int, y2: int)

  datatype Segment = Segment(lines: seq<Line>) {
    predicate IsEmpty() {
      |lines| == 0
    }

    /** Writes the line count, then one row per line. */
    method SaveObject(out: OutputStream)
      modifies out
      ensures out.text == old(out.text) + SegmentText(this)
    {
      var count := |lines|;
      WriteCount(out, count);
      ghost var header := out.text;
      var n := 0;
      while n < count
        invariant 0 <= n <= count
        invariant out.text == header + LinesText(lines[..n])
      {
        var line := lines[n];
        WriteLine(out, line);
        assert lines[..n + 1][..n] == lines[..n];
        n := n + 1;
      }
      assert lines[..n] == lines;
    }

    /**
     * Reads a line count, then that many lines, appending them to this
     * segment's lines. A count of zero or less reads no lines.
     */
    method LoadObject(inp: InputStream) returns (loaded: Segment)
      modifies inp
      ensures loaded.lines == lines + ReadSegment(old(inp.cursor)).value.lines
      ensures inp.cursor == ReadSegment(old(inp.cursor)).cursor
    {
      var count := inp.Extract();
      ghost var start := inp.cursor;
      loaded := this;
      var n := 0;
      while n < count
        invariant 0 <= n && (count >= 0 ==> n <= count) && (count < 0 ==> n == 0)
        invariant loaded.lines == lines + ReadLines(start, n).value
        invariant inp.cursor == ReadLines(start, n).cursor
      {
        var x1 := inp.Extract();
        var y1 := inp.Extract();
        var x2 := inp.Extract();
        var y2 := inp.Extract();
        loaded := Segment(loaded.lines + [Line(x1, y1, x2, y2)]);
        n := n + 1;
      }
      assert n == if count < 0 then 0 else count;
    }
  }

  /** Writes a count on a line of its own. */
  method WriteCount(out: OutputStream, count: int)
    modifies out
    ensures out.text == old(out.text) + RowText([count])
  {
    out.WriteInt(count);
    out.WriteChar('\n');
  }

  /** Writes one `x1 y1 x2 y2` row. */
  method WriteLine(out: OutputStream, line: Line)
    modifies out
    ensures out.text == old(out.text) + LineText(line)
  {
    ghost var start := out.text;
    ghost var a, b, c, d := IntText(line.x1) + " ", IntText(line.y1) + " ", IntText(line.x2) + " ", IntText(line.y2) + "\n";
    WriteField(out, line.x1, ' ');
    WriteField(out, line.y1, ' ');
    assert out.text == start + (a + b);
    WriteField(out, line.x2, ' ');
    assert out.text == start + (a + b + c);
    WriteField(out, line.y2, '\n');
    assert out.text == start + (a + b + c + d);
    RowFields(line.x1, line.y1, line.x2, line.y2);
  }

  /** Writes one integer and the character that follows it. */
  method WriteField(out: OutputStream, v: int, separator: char)
    modifies out
    ensures out.text == old(out.text) + (IntText(v) + [separator])
  {
    out.WriteInt(v);
    out.WriteChar(separator);
  }

  /** A four-field row, spelled out field by field. */
  lemma {:induction false} RowFields(x1: int, y1: int, x2: int, y2: int)
    ensures RowText([x1, y1, x2, y2])
         == (IntText(x1) + " ") + (IntText(y1) + " ") + (IntText(x2) + " ") + (IntText(y2) + "\n")
  {
    RowCons(x2, [y2]);
    RowCons(y1, [x2, y2]);
    RowCons(x1, [y1, x2, y2]);
  }

  // ---------------------------------------------------------------------------
  // The text written

  function LineText(l: Line): string {
    RowText(LineTokens(l))
  }

  function LinesText(ls: seq<Line>): string {
    if ls == [] then "" else LinesText(ls[..|ls| - 1]) + LineText(ls[|ls| - 1])
  }

  function SegmentText(s: Segment): string {
    RowText([|s.lines|]) + LinesText(s.lines)
  }

  /** Every segment's text, each followed by the extra newline. */
  function SegmentsText(ss: seq<Segment>): string {
    if ss == [] then "" else SegmentsText(ss[..|ss| - 1]) + SegmentText(ss[|ss| - 1]) + "\n"
  }

  function DrawingText(ss: seq<Segment>): string {
    RowText([|ss|]) + SegmentsText(ss)
  }

  // ---------------------------------------------------------------------------
  // The integers that text holds

  function LineTokens(l: Line): seq<int> {
    [l.x1, l.y1, l.x2, l.y2]
  }

  function LinesTokens(ls: seq<Line>): seq<int> {
    if ls == [] then [] else LinesTokens(ls[..|ls| - 1]) + LineTokens(ls[|ls| - 1])
  }

  function SegmentTokens(s: Segment): seq<int> {
    [|s.lines|] + LinesTokens(s.lines)
  }

  function SegmentsTokens(ss: seq<Segment>): seq<int> {
    if ss == [] then [] else SegmentsTokens(ss[..|ss| - 1]) + SegmentTokens(ss[|ss| - 1])
  }

  function DrawingTokens(ss: seq<Segment>): seq<int> {
    [|ss|] + SegmentsTokens(ss)
  }

  // ---------------------------------------------------------------------------
  // Reading

  function ReadLine(c: Cursor): Decoded<Line> {
    var x1 := Next(c);
    var y1 := Next(x1.cursor);
    var x2 := Next(y1.cursor);
    var y2 := Next(x2.cursor);
    Decoded(Line(x1.value, y1.value, x2.value, y2.value), y2.cursor)
  }

  /** The first `n` iterations of the line-reading loop. */
  function ReadLines(c: Cursor, n: nat): (r: Decoded<seq<Line>>)
    ensures |r.value| == n
  {
    if n == 0 then Decoded([], c)
    else
      var prev := ReadLines(c, n - 1);
      var line := ReadLine(prev.cursor);
      Decoded(prev.value + [line.value], line.cursor)
  }

  /** A segment read from a fresh (empty) segment: its count, then its lines. */
  function ReadSegment(c: Cursor): Decoded<Segment> {
    var count := Next(c);
    var lines := ReadLines(count.cursor, if count.value < 0 then 0 else count.value);
    Decoded(Segment(lines.value), lines.cursor)
  }

  /** The first `n` iterations of the segment-reading loop. */
  function ReadSegments(c: Cursor, n: nat): (r: Decoded<seq<Segment>>)
    ensures |r.value| == n
  {
    if n == 0 then Decoded([], c)
    else
      var prev := ReadSegments(c, n - 1);
      var segment := ReadSegment(prev.cursor);
      Decoded(prev.value + [segment.value], segment.cursor)
  }

  /**
   * The segments a document load appends, and the stream afterwards. A
   * negative segment count puts the stream into its error state and yields
   * no segments.
   */
  function LoadSegments(c: Cursor): Decoded<seq<Segment>> {
    var count := Next(c);
    if count.value < 0 then Decoded([], count.cursor.(failed := true))
    else ReadSegments(count.cursor, count.value)
  }

  // ---------------------------------------------------------------------------
  // Properties of the encoding

  /** The saved text of the two-line example segment, character for character. */
  lemma {:induction false} ExampleText()
    ensures DrawingText([Segment([Line(0, 0, 10, 10), Line(10, 10, 20, 0)])])
         == "1\n2\n0 0 10 10\n10 10 20 0\n\n"
  {
    var a, b := Line(0, 0, 10, 10), Line(10, 10, 20, 0);
    OneSegmentTwoLines(a, b);
    ExampleRows(a, b);
    ExampleCounts();
    ExampleConcat(RowText([1]), RowText([2]), LineText(a), LineText(b));
  }

  /** The example's pieces, put together. */
  lemma {:induction false} ExampleConcat(p: string, q: string, x: string, y: string)
    requires p == "1\n" && q == "2\n" && x == "0 0 10 10\n" && y == "10 10 20 0\n"
    ensures p + (q + x + y + "\n") == "1\n2\n0 0 10 10\n10 10 20 0\n\n"
  {
  }

  lemma {:induction false} ExampleCounts()
    ensures RowText([1]) == "1\n" && RowText([2]) == "2\n"
  {
  }

  lemma {:induction false} OneSegmentTwoLines(a: Line, b: Line)
    ensures DrawingText([Segment([a, b])])
         == RowText([1]) + (RowText([2]) + LineText(a) + LineText(b) + "\n")
  {
    assert [a][..0] == [];
    assert LinesText([a]) == "" + LineText(a) == LineText(a);
    assert [a, b][..1] == [a] && [a, b][1] == b;
    assert LinesText([a, b]) == LineText(a) + LineText(b);
    var s := Segment([a, b]);
    assert [s][..0] == [];
    assert SegmentsText([s]) == SegmentText(s) + "\n";
  }

  lemma {:induction false} ExampleRows(a: Line, b: Line)
    requires a == Line(0, 0, 10, 10) && b == Line(10, 10, 20, 0)
    ensures LineText(a) == "0 0 10 10\n" && LineText(b) == "10 10 20 0\n"
  {
    RowFields(a.x1, a.y1, a.x2, a.y2);
    RowFields(b.x1, b.y1, b.x2, b.y2);
    ExampleInts();
  }

  lemma {:induction false} ExampleInts()
    ensures IntText(0) == "0" && IntText(10) == "10" && IntText(20) == "20"
  {
    assert IntText(1) == "1" && IntText(2) == "2";
  }

  lemma {:induction false} LexLines(ls: seq<Line>)
    ensures Lexes(LinesText(ls), LinesTokens(ls))
  {
    if ls == [] {
      forall rest ensures Lex("" + rest) == [] + Lex(rest) {
        assert "" + rest == rest;
      }
    } else {
      var init, last := ls[..|ls| - 1], ls[|ls| - 1];
      LexLines(init);
      LexesRow(LineTokens(last));
      LexesAppend(LinesText(init), LinesTokens(init), LineText(last), LineTokens(last));
    }
  }

  lemma {:induction false} LexSegment(s: Segment)
    ensures Lexes(SegmentText(s), SegmentTokens(s))
  {
    LexesRow([|s.lines|]);
    LexLines(s.lines);
    LexesAppend(RowText([|s.lines|]), [|s.lines|], LinesText(s.lines), LinesTokens(s.lines));
  }

  lemma {:induction false} LexSegments(ss: seq<Segment>)
    ensures Lexes(SegmentsText(ss), SegmentsTokens(ss))
  {
    if ss == [] {
      forall rest ensures Lex("" + rest) == [] + Lex(rest) {
        assert "" + rest == rest;
      }
    } else {
      var init, last := ss[..|ss| - 1], ss[|ss| - 1];
      LexSegments(init);
      LexSegment(last);
      LexesAppend(SegmentsText(init), SegmentsTokens(init), SegmentText(last), SegmentTokens(last));
      LexesSpace('\n');
      LexesAppend(SegmentsText(init) + SegmentText(last), SegmentsTokens(ss), "\n", []);
      assert SegmentsTokens(ss) + [] == SegmentsTokens(ss);
    }
  }

  /** The saved text reads back as exactly the drawing's integers, in order. */
  lemma {:induction false} LexDrawing(ss: seq<Segment>)
    ensures Lex(DrawingText(ss)) == DrawingTokens(ss)
  {
    LexesRow([|ss|]);
    LexSegments(ss);
    LexesAppend(RowText([|ss|]), [|ss|], SegmentsText(ss), SegmentsTokens(ss));
    assert DrawingText(ss) + "" == DrawingText(ss);
    assert Lex(DrawingText(ss) + "") == DrawingTokens(ss) + Lex("");
  }

  lemma {:induction false} ReadLineRoundTrip(l: Line, more: seq<int>)
    ensures ReadLine(Cursor(LineTokens(l) + more, false)) == Decoded(l, Cursor(more, false))
  {
    var t := LineTokens(l) + more;
    assert t[1..] == [l.y1, l.x2, l.y2] + more;
    assert t[1..][1..] == [l.x2, l.y2] + more;
    assert t[1..][1..][1..] == [l.y2] + more;
    assert t[1..][1..][1..][1..] == more;
  }

  lemma {:induction false} ReadLinesRoundTrip(ls: seq<Line>, more: seq<int>)
    ensures ReadLines(Cursor(LinesTokens(ls) + more, false), |ls|) == Decoded(ls, Cursor(more, false))
  {
    if ls != [] {
      var init, last := ls[..|ls| - 1], ls[|ls| - 1];
      var c := Cursor(LinesTokens(ls) + more, false);
      assert LinesTokens(ls) + more == LinesTokens(init) + (LineTokens(last) + more);
      ReadLinesRoundTrip(init, LineTokens(last) + more);
      var prev := ReadLines(c, |ls| - 1);
      assert prev == Decoded(init, Cursor(LineTokens(last) + more, false));
      ReadLineRoundTrip(last, more);
      assert init + [last] == ls;
    }
  }

  lemma {:induction false} ReadSegmentRoundTrip(s: Segment, more: seq<int>)
    ensures ReadSegment(Cursor(SegmentTokens(s) + more, false)) == Decoded(s, Cursor(more, false))
  {
    var t := SegmentTokens(s) + more;
    assert t[1..] == LinesTokens(s.lines) + more;
    ReadLinesRoundTrip(s.lines, more);
  }

  lemma {:induction false} ReadSegmentsRoundTrip(ss: seq<Segment>, more: seq<int>)
    ensures ReadSegments(Cursor(SegmentsTokens(ss) + more, false), |ss|) == Decoded(ss, Cursor(more, false))
  {
    if ss != [] {
      var init, last := ss[..|ss| - 1], ss[|ss| - 1];
      assert SegmentsTokens(ss) + more == SegmentsTokens(init) + (SegmentTokens(last) + more);
      ReadSegmentsRoundTrip(init, SegmentTokens(last) + more);
      ReadSegmentRoundTrip(last, more);
      assert init + [last] == ss;
    }
  }

  /** Loading a drawing's integers yields its segments, in order, and leaves the stream good. */
  lemma {:induction false} LoadRoundTrip(ss: seq<Segment>, more: seq<int>)
    ensures LoadSegments(Cursor(DrawingTokens(ss) + more, false)) == Decoded(ss, Cursor(more, false))
  {
    var t := DrawingTokens(ss) + more;
    assert t[1..] == SegmentsTokens(ss) + more;
    ReadSegmentsRoundTrip(ss, more);
  }

  /** Loading the text a drawing is saved as gives back the same segments and lines. */
  lemma {:induction false} SaveLoadRoundTrip(ss: seq<Segment>)
    ensures LoadSegments(Cursor(Lex(DrawingText(ss)), false)) == Decoded(ss, Cursor([], false))
  {
    LexDrawing(ss);
    assert DrawingTokens(ss) == DrawingTokens(ss) + [];
    LoadRoundTrip(ss, []);
  }

  /** A negative segment count reads no segments and leaves the stream in its error state. */
  lemma {:induction false} NegativeSegmentCount(c: Cursor)
    requires Next(c).value < 0
    ensures !c.failed && c.rest != [] && c.rest[0] < 0
    ensures LoadSegments(c) == Decoded([], Cursor(c.rest[1..], true))
  {
  }

  /** A non-negative segment count reads exactly that many segments, whatever follows. */
  lemma {:induction false} SegmentCountRead(c: Cursor)
    requires Next(c).value >= 0
    ensures |LoadSegments(c).value| == Next(c).value
  {
  }

  /** A line count of zero or less gives an empty segment and reads nothing after the count. */
  lemma {:induction false} NonPositiveLineCount(c: Cursor)
    requires Next(c).value <= 0
    ensures ReadSegment(c) == Decoded(Segment([]), Next(c).cursor)
  {
  }

  /** `n` empty segments. */
  function Blank(n: nat): (r: seq<Segment>)
    ensures |r| == n && forall i :: 0 <= i < n ==> r[i].IsEmpty()
  {
    if n == 0 then [] else Blank(n - 1) + [Segment([])]
  }

  /**
   * Once the stream has failed or run out, every further segment reads as
   * empty (its count reads as 0) and the stream is left failed.
   */
  lemma {:induction false} ReadSegmentsExhausted(c: Cursor, n: nat)
    requires c.failed || c.rest == []
    ensures ReadSegments(c, n) == Decoded(Blank(n), if n == 0 then c else Cursor(c.rest, true))
  {
    if n > 0 {
      ReadSegmentsExhausted(c, n - 1);
      var prev := ReadSegments(c, n - 1);
      assert prev.cursor.failed || prev.cursor.rest == [];
      assert ReadSegment(prev.cursor) == Decoded(Segment([]), Cursor(c.rest, true));
    }
  }

  /**
   * A stream that ends right after a segment count of `k` still yields `k`
   * empty segments, with the stream failed when `k` is positive.
   */
  lemma {:induction false} TruncatedAfterCount(k: nat)
    ensures LoadSegments(Cursor([k], false)) == Decoded(Blank(k), Cursor([], k > 0))
  {
    assert [k][1..] == [];
    ReadSegmentsExhausted(Cursor([], false), k);
  }
}
