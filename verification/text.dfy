/** String primitives the pipeline relies on: lower-casing, substring search
    (Python's `needle in hay`), `sep.join(parts)`, decimal rendering of
    positions, and splitting newline-terminated text into lines. */
module Text {

  predicate IsUpper(c: char) {
    'A' <= c <= 'Z'
  }

  /** ASCII lower-casing of one character. */
  function LowerChar(c: char): char {
    if IsUpper(c) then (c as int - 'A' as int + 'a' as int) as char else c
  }

  /** ASCII stand-in for Python's `str.lower`. */
  function Lower(s: string): (r: string)
    ensures |r| == |s|
    ensures forall i :: 0 <= i < |r| ==> !IsUpper(r[i])
  {
    seq(|s|, i requires 0 <= i < |s| => LowerChar(s[i]))
  }

  /** `needle` occurs in `hay` starting at position `i`. */
  ghost predicate OccursAt(needle: string, hay: string, i: int) {
    0 <= i && i + |needle| <= |hay| && hay[i..i + |needle|] == needle
  }

  /** `needle` occurs somewhere in `hay` (the empty string occurs everywhere). */
  ghost predicate Occurs(needle: string, hay: string) {
    exists i :: OccursAt(needle, hay, i)
  }

  /** Dropping the first character of `hay` loses no occurrence when `needle`
      is not a prefix of `hay`. */
  lemma OccursShift(needle: string, hay: string)
    requires |hay| > 0 && !(needle <= hay)
    ensures Occurs(needle, hay) <==> Occurs(needle, hay[1..])
  {
    if Occurs(needle, hay) {
      var i :| OccursAt(needle, hay, i);
      if i == 0 {
        assert false;
      }
      assert hay[1..][i - 1..i - 1 + |needle|] == hay[i..i + |needle|];
      assert OccursAt(needle, hay[1..], i - 1);
    }
    if Occurs(needle, hay[1..]) {
      var i :| OccursAt(needle, hay[1..], i);
      assert hay[1..][i..i + |needle|] == hay[i + 1..i + 1 + |needle|];
      assert OccursAt(needle, hay, i + 1);
    }
  }

  /** Python's substring test `needle in hay`. */
  function Contains(hay: string, needle: string): (b: bool)
    ensures b <==> Occurs(needle, hay)
    decreases |hay|
  {
    if needle <= hay then
      assert OccursAt(needle, hay, 0);
      true
    else if |hay| == 0 then
      false
    else
      OccursShift(needle, hay);
      Contains(hay[1..], needle)
  }

  /** Python's `sep.join(parts)`. */
  function Join(sep: string, parts: seq<string>): string
    decreases |parts|
  {
    if |parts| == 0 then ""
    else if |parts| == 1 then parts[0]
    else parts[0] + sep + Join(sep, parts[1..])
  }

  /** With two or more parts the separator follows the first part. */
  lemma JoinSeparatorAfterFirst(sep: string, parts: seq<string>)
    requires |parts| >= 2
    ensures |parts[0]| + |sep| <= |Join(sep, parts)|
    ensures Join(sep, parts)[|parts[0]|..|parts[0]| + |sep|] == sep
  {
  }

  /** `s.endswith(suffix)`. */
  predicate EndsWith(s: string, suffix: string) {
    |suffix| <= |s| && s[|s| - |suffix|..] == suffix
  }

  /** Whether a string ends with a suffix depends only on a tail at least as
      long as the suffix. */
  lemma EndsWithConcat(a: string, b: string, suffix: string)
    requires |suffix| <= |b|
    ensures EndsWith(a + b, suffix) <==> EndsWith(b, suffix)
  {
  }

  predicate IsDigit(c: char) {
    '0' <= c <= '9'
  }

  function DigitChar(d: nat): (c: char)
    requires d < 10
    ensures IsDigit(c)
  {
    (d + '0' as int) as char
  }

  /** Decimal rendering of a natural number, as `f"{n}"` prints it. */
  function NatToString(n: nat): (s: string)
    ensures |s| > 0
    ensures forall i :: 0 <= i < |s| ==> IsDigit(s[i])
    decreases n
  {
    if n < 10 then [DigitChar(n)] else NatToString(n / 10) + [DigitChar(n % 10)]
  }

  /** Reads a string of decimal digits back as a number. */
  function ParseDecimal(s: string): nat
    requires forall i :: 0 <= i < |s| ==> IsDigit(s[i])
    decreases |s|
  {
    if |s| == 0 then 0
    else
      assert IsDigit(s[|s| - 1]);
      10 * ParseDecimal(s[..|s| - 1]) + (s[|s| - 1] as int - '0' as int)
  }

  /** Rendering a position and reading it back yields the position. */
  lemma {:induction false} ParseNatToString(n: nat)
    ensures ParseDecimal(NatToString(n)) == n
    decreases n
  {
    var s := NatToString(n);
    if n >= 10 {
      assert s[..|s| - 1] == NatToString(n / 10);
      ParseNatToString(n / 10);
    }
  }

  /** Splits `s` into lines, `pending` being the part of the current line
      already read: every newline ends one line, and text after the last
      newline (if any) is a final line of its own. */
  function SplitLines(pending: string, s: string): seq<string>
    decreases |s|
  {
    if |s| == 0 then (if |pending| == 0 then [] else [pending])
    else if s[0] == '\n' then [pending] + SplitLines("", s[1..])
    else SplitLines(pending + [s[0]], s[1..])
  }

  /** The lines of `s`, broken only at `'\n'`: `s.split("\n")` without the
      empty piece after a final newline. */
  function Lines(s: string): seq<string> {
    SplitLines("", s)
  }

  lemma {:induction false} SplitLinesCons(pending: string, line: string, rest: string)
    requires '\n' !in line
    ensures SplitLines(pending, line + "\n" + rest) == [pending + line] + SplitLines("", rest)
    decreases |line|
  {
    var s := line + "\n" + rest;
    if |line| == 0 {
      assert s == "\n" + rest && s[1..] == rest;
      assert pending + line == pending;
    } else {
      assert s[0] == line[0] && s[1..] == line[1..] + "\n" + rest;
      SplitLinesCons(pending + [line[0]], line[1..], rest);
      assert pending + [line[0]] + line[1..] == pending + line;
    }
  }

  /** A newline-terminated line followed by more text splits off as one line. */
  lemma LinesCons(line: string, rest: string)
    requires '\n' !in line
    ensures Lines(line + "\n" + rest) == [line] + Lines(rest)
  {
    SplitLinesCons("", line, rest);
    assert "" + line == line;
  }
}
