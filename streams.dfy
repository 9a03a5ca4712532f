/**
 * The two document streams the drawing codec talks to.
 *
 * An output stream is the text written so far. An input stream is the
 * sequence of integers its text still holds (see TextFormat.Lex) together
 * with the stream's error state: once an extraction has failed, or the stream
 * has been put into an error state on purpose, every later extraction fails.
 */
module Streams {
  import opened TextFormat

  /** What remains to be read, and whether the stream is in an error state. */
  datatype Cursor = Cursor(rest: seq<int>, failed: bool)

  /** A value read from a stream and the stream's state after reading it. */
  datatype Decoded<T> = Decoded(value: T, cursor: Cursor)

  /**
   * One `stream >> n`. A failed or exhausted stream leaves the target at its
   * initial 0 and is (or stays) failed; otherwise the first integer is taken.
   */
  function Next(c: Cursor): Decoded<int> {
    if c.failed || c.rest == [] then Decoded(0, Cursor(c.rest, true))
    else Decoded(c.rest[0], Cursor(c.rest[1..], false))
  }

  class OutputStream {
    var text: string

    constructor ()
      ensures text == []
    {
      text := [];
    }

    /** `stream << v` for an integer. */
    method WriteInt(v: int)
      modifies this
      ensures text == old(text) + IntText(v)
    {
      text := text + IntText(v);
    }

    /** `stream << c` for a single character. */
    method WriteChar(c: char)
      modifies this
      ensures text == old(text) + [c]
    {
      text := text + [c];
    }
  }

  class InputStream {
    var cursor: Cursor

    /** A stream opened on `text`, in the good state. */
    constructor (text: string)
      ensures cursor == Cursor(Lex(text), false)
    {
      cursor := Cursor(Lex(text), false);
    }

    /** `stream >> n` for an integer `n` that starts out as 0. */
    method Extract() returns (v: int)
      modifies this
      ensures Decoded(v, cursor) == Next(old(cursor))
    {
      if cursor.failed || cursor.rest == [] {
        v := 0;
        cursor := cursor.(failed := true);
      } else {
        v := cursor.rest[0];
        cursor := cursor.(rest := cursor.rest[1..]);
      }
    }

    /** Put the stream into its error state, as `clear(badbit)` does. */
    method SetError()
      modifies this
      ensures cursor == old(cursor).(failed := true)
    {
      cursor := cursor.(failed := true);
    }
  }
}
