/**
 * The decimal text layer under the `.drw` format: how an integer is printed by
 * `stream << n`, and how `stream >> n` reads integers back out of text.
 *
 * Reading follows the C++ iostream extraction of an int: leading whitespace is
 * skipped, an optional sign is accepted, then the longest run of decimal digits
 * is taken. Text that does not start a number puts the stream into its failed
 * state, so every later read fails too; `Lex` therefore yields the tokens up to
 * the first such place and no more.
 */
module TextFormat {
  import opened Wrappers

  /** The characters `isspace` accepts in the C locale. */
  predicate IsSpace(c: char) {
    c == ' ' || c == '\n' || c == '\t' || c == '\r' || c == '\U{B}' || c == '\U{C}'
  }

  predicate IsDigit(c: char) {
    '0' <= c <= '9'
  }

  predicate AllDigits(s: string) {
    forall i :: 0 <= i < |s| ==> IsDigit(s[i])
  }

  function DigitChar(d: nat): (c: char)
    requires d < 10
    ensures IsDigit(c)
  {
    ('0' as int + d) as char
  }

  function DigitOf(c: char): (d: nat)
    requires IsDigit(c)
    ensures d < 10
  {
    c as int - '0' as int
  }

  /**
   * What `stream << v` writes for an integer `v`: a minus sign when `v` is
   * negative, then its decimal digits, most significant first.
   */
  function IntText(v: int): string
    decreases if v < 0 then 1 - v else v
  {
    if v < 0 then "-" + IntText(-v)
    else if v < 10 then [DigitChar(v)]
    else IntText(v / 10) + [DigitChar(v % 10)]
  }

  /** A row of integers separated by single spaces and ended by a newline. */
  function RowText(vs: seq<int>): string
    requires vs != []
  {
    if |vs| == 1 then IntText(vs[0]) + "\n" else IntText(vs[0]) + " " + RowText(vs[1..])
  }

  /** A row with more than one integer is its first integer, a space, and the rest of the row. */
  lemma {:induction false} RowCons(v: int, vs: seq<int>)
    requires vs != []
    ensures RowText([v] + vs) == IntText(v) + " " + RowText(vs)
  {
    assert ([v] + vs)[1..] == vs;
  }

  /** The value of a run of decimal digits, most significant first. */
  function DigitsValue(s: string): nat
    requires AllDigits(s)
  {
    if s == [] then 0 else 10 * DigitsValue(s[..|s| - 1]) + DigitOf(s[|s| - 1])
  }

  /** Length of the longest prefix of `s` made of digits. */
  function DigitRun(s: string): (k: nat)
    ensures k <= |s| && AllDigits(s[..k])
    ensures k < |s| ==> !IsDigit(s[k])
  {
    if s == [] || !IsDigit(s[0]) then 0
    else
      var k := 1 + DigitRun(s[1..]);
      assert s[..k] == [s[0]] + s[1..][..k - 1];
      k
  }

  /**
   * One integer extraction at the start of `s` (no leading whitespace):
   * an optional sign and at least one digit. Returns the value and the
   * number of characters consumed, or None if no number starts here.
   */
  function ScanNumber(s: string): (r: Option<(int, nat)>)
    ensures r.Some? ==> 0 < r.value.1 <= |s|
  {
    var signed := |s| > 0 && (s[0] == '-' || s[0] == '+');
    var start := if signed then 1 else 0;
    var k := DigitRun(s[start..]);
    if k == 0 then None
    else
      var magnitude: int := DigitsValue(s[start..][..k]);
      var value: int := if signed && s[0] == '-' then -magnitude else magnitude;
      Some((value, start + k))
  }

  /** The integers that successive extractions read from the text `s`. */
  function Lex(s: string): seq<int>
    decreases |s|, 1
  {
    if s == [] then []
    else if IsSpace(s[0]) then Lex(s[1..])
    else LexNumber(s)
  }

  /** The integers read from `s` when `s` does not start with whitespace. */
  function LexNumber(s: string): seq<int>
    decreases |s|, 0
  {
    match ScanNumber(s)
    case None => []
    case Some(token) => [token.0] + Lex(s[token.1..])
  }

  /** The text of a non-negative integer is a non-empty run of digits. */
  lemma {:induction false} NatTextDigits(v: int)
    requires v >= 0
    ensures |IntText(v)| > 0 && AllDigits(IntText(v))
  {
    if v >= 10 {
      NatTextDigits(v / 10);
    }
  }

  /** Reading a non-negative integer's digits gives the integer back. */
  lemma {:induction false} DigitsValueOfIntText(v: int)
    requires v >= 0
    ensures AllDigits(IntText(v)) && DigitsValue(IntText(v)) == v
  {
    NatTextDigits(v);
    if v >= 10 {
      var s := IntText(v);
      NatTextDigits(v / 10);
      assert s[..|s| - 1] == IntText(v / 10);
      DigitsValueOfIntText(v / 10);
    }
  }

  lemma {:induction false} DigitRunOfDigits(ds: string, rest: string)
    requires AllDigits(ds)
    requires rest == [] || !IsDigit(rest[0])
    ensures DigitRun(ds + rest) == |ds|
  {
    if ds != [] {
      assert (ds + rest)[1..] == ds[1..] + rest;
      DigitRunOfDigits(ds[1..], rest);
    }
  }

  /** Reading back a printed integer gives the integer and consumes exactly its text. */
  lemma {:induction false} ScanIntText(v: int, rest: string)
    requires rest == [] || !IsDigit(rest[0])
    ensures ScanNumber(IntText(v) + rest) == Some((v, |IntText(v)|))
  {
    var s := IntText(v) + rest;
    var ds := IntText(if v < 0 then -v else v);
    DigitsValueOfIntText(if v < 0 then -v else v);
    DigitRunOfDigits(ds, rest);
    if v < 0 {
      assert s[1..] == ds + rest;
      assert s[1..][..|ds|] == ds;
    } else {
      assert s[0..] == ds + rest;
      assert s[0..][..|ds|] == ds;
    }
  }

  /** Whitespace between tokens is skipped. */
  lemma {:induction false} LexSpace(c: char, rest: string)
    requires IsSpace(c)
    ensures Lex([c] + rest) == Lex(rest)
  {
    assert ([c] + rest)[1..] == rest;
  }

  /** A printed integer followed by a separator lexes to that one integer. */
  lemma {:induction false} LexIntText(v: int, c: char, rest: string)
    requires IsSpace(c)
    ensures Lex(IntText(v) + ([c] + rest)) == [v] + Lex(rest)
  {
    var t := IntText(v);
    var s := t + ([c] + rest);
    NatTextDigits(if v < 0 then -v else v);
    assert s[0] == t[0];
    assert Lex(s) == LexNumber(s);
    ScanIntText(v, [c] + rest);
    assert s[|t|..] == [c] + rest;
    LexSpace(c, rest);
  }

  /** A written row lexes back to exactly its integers. */
  lemma {:induction false} LexRow(vs: seq<int>, rest: string)
    requires vs != []
    ensures Lex(RowText(vs) + rest) == vs + Lex(rest)
  {
    if |vs| == 1 {
      assert RowText(vs) + rest == IntText(vs[0]) + ("\n" + rest);
      LexIntText(vs[0], '\n', rest);
    } else {
      assert RowText(vs) + rest == IntText(vs[0]) + (" " + (RowText(vs[1..]) + rest));
      LexIntText(vs[0], ' ', RowText(vs[1..]) + rest);
      LexRow(vs[1..], rest);
      assert vs == [vs[0]] + vs[1..];
    }
  }

  /** `a` reads as the integers `ta`, whatever text follows it. */
  ghost predicate Lexes(a: string, ta: seq<int>) {
    forall rest :: Lex(a + rest) == ta + Lex(rest)
  }

  /** Texts that read as integers on their own can be written one after another. */
  lemma {:induction false} LexesAppend(a: string, ta: seq<int>, b: string, tb: seq<int>)
    requires Lexes(a, ta) && Lexes(b, tb)
    ensures Lexes(a + b, ta + tb)
  {
    forall rest
      ensures Lex(a + b + rest) == ta + tb + Lex(rest)
    {
      assert a + b + rest == a + (b + rest);
      assert Lex(a + (b + rest)) == ta + Lex(b + rest);
    }
  }

  lemma {:induction false} LexesRow(vs: seq<int>)
    requires vs != []
    ensures Lexes(RowText(vs), vs)
  {
    forall rest
      ensures Lex(RowText(vs) + rest) == vs + Lex(rest)
    {
      LexRow(vs, rest);
    }
  }

  lemma {:induction false} LexesSpace(c: char)
    requires IsSpace(c)
    ensures Lexes([c], [])
  {
    forall rest
      ensures Lex([c] + rest) == [] + Lex(rest)
    {
      LexSpace(c, rest);
    }
  }
}
