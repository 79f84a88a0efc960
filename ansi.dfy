/**
 * The ANSI colour codes main.go writes (main.go:13-22), the choice of header colour by
 * level (`colorForLevel`), and what a terminal shows once those codes are removed.
 */
module Ansi {
  import opened Text

  const Esc: char := 27 as char

  const Reset: string := [Esc] + "[0m"
  const Red: string := [Esc] + "[0;31m"
  const Yellow: string := [Esc] + "[0;33m"
  const Green: string := [Esc] + "[0;32m"
  const Blue: string := [Esc] + "[0;34m"
  const White: string := [Esc] + "[0;37m"
  const Gray: string := [Esc] + "[0;90m"
  const BrightWhite: string := [Esc] + "[1;37m"

  /**
   * The header colour of a level: red for errors, yellow for warnings and blue for every
   * other level, the empty one included.
   */
  function ColorForLevel(level: string): (c: string)
    ensures c == Red <==> level == "E"
    ensures c == Yellow <==> level == "W"
    ensures c == Blue <==> level != "E" && level != "W"
  {
    assert Red[5] != Yellow[5] && Red[5] != Blue[5] && Yellow[5] != Blue[5];
    if level == "E" then Red
    else if level == "W" then Yellow
    else Blue
  }

  /** A select-graphic-rendition sequence: ESC, parameters without an `m`, then `m`. */
  predicate IsCode(c: string) {
    |c| >= 2 && c[0] == Esc && c[|c| - 1] == 'm'
    && forall i :: 1 <= i < |c| - 1 ==> c[i] != 'm'
  }

  /** Text that holds no escape character. */
  predicate Plain(s: string) {
    Esc !in s
  }

  lemma AllCodes()
    ensures IsCode(Reset) && IsCode(Red) && IsCode(Yellow) && IsCode(Green)
    ensures IsCode(Blue) && IsCode(White) && IsCode(Gray) && IsCode(BrightWhite)
  {
  }

  /** The text behind an escape character: everything after the first `m`. */
  function SkipCode(s: string): (r: string)
    ensures |r| <= |s|
    decreases |s|
  {
    if s == [] then [] else if s[0] == 'm' then s[1..] else SkipCode(s[1..])
  }

  /** What a terminal displays: the text with every escape sequence removed. */
  function StripAnsi(s: string): string
    decreases |s|
  {
    if s == [] then []
    else if s[0] == Esc then StripAnsi(SkipCode(s[1..]))
    else [s[0]] + StripAnsi(s[1..])
  }

  /** Every escape sequence in `s` is terminated inside `s`. */
  predicate Closed(s: string)
    decreases |s|
  {
    if s == [] then true
    else if s[0] == Esc then 'm' in s[1..] && Closed(SkipCode(s[1..]))
    else Closed(s[1..])
  }

  lemma {:induction false} SkipCodeConcat(a: string, b: string)
    requires 'm' in a
    ensures SkipCode(a + b) == SkipCode(a) + b
    decreases |a|
  {
    assert (a + b)[1..] == a[1..] + b;
    if a[0] != 'm' {
      SkipCodeConcat(a[1..], b);
    }
  }

  /** Removing the codes from a concatenation removes them from each part. */
  lemma {:induction false} StripConcat(a: string, b: string)
    requires Closed(a)
    ensures StripAnsi(a + b) == StripAnsi(a) + StripAnsi(b)
    ensures Closed(b) ==> Closed(a + b)
    decreases |a|
  {
    if a == [] {
      assert a + b == b;
    } else {
      var ab := a + b;
      assert ab[0] == a[0] && ab[1..] == a[1..] + b;
      if a[0] == Esc {
        SkipCodeConcat(a[1..], b);
        StripConcat(SkipCode(a[1..]), b);
        assert 'm' in ab[1..];
      } else {
        StripConcat(a[1..], b);
      }
    }
  }

  lemma {:induction false} StripPlain(p: string)
    requires Plain(p)
    ensures Closed(p) && StripAnsi(p) == p
    decreases |p|
  {
    if p != [] {
      assert p[0] != Esc;
      StripPlain(p[1..]);
    }
  }

  lemma StripCode(c: string)
    requires IsCode(c)
    ensures Closed(c) && StripAnsi(c) == []
  {
    var body := c[1..];
    assert 'm' in body by { assert body[|body| - 1] == 'm'; }
    assert SkipCode(body) == [] by { SkipToLast(body); }
  }

  lemma {:induction false} SkipToLast(s: string)
    requires s != [] && s[|s| - 1] == 'm'
    requires forall i :: 0 <= i < |s| - 1 ==> s[i] != 'm'
    ensures SkipCode(s) == []
    decreases |s|
  {
    if |s| > 1 {
      SkipToLast(s[1..]);
    }
  }

  /** The strings shown after removing codes from each part of a list. */
  function StripEach(parts: seq<string>): (r: seq<string>)
    ensures |r| == |parts|
  {
    seq(|parts|, i requires 0 <= i < |parts| => StripAnsi(parts[i]))
  }

  /** Removing the codes from a joined list removes them from each part and from the separator. */
  lemma {:induction false} StripJoin(parts: seq<string>, sep: string)
    requires Closed(sep)
    requires forall i :: 0 <= i < |parts| ==> Closed(parts[i])
    ensures StripAnsi(Join(parts, sep)) == Join(StripEach(parts), StripAnsi(sep))
    ensures Closed(Join(parts, sep))
    decreases |parts|
  {
    if |parts| == 0 {
      assert StripAnsi([]) == [];
    } else if |parts| >= 2 {
      StripJoin(parts[1..], sep);
      StripConcat(parts[0], sep);
      StripConcat(parts[0] + sep, Join(parts[1..], sep));
      assert StripEach(parts)[1..] == StripEach(parts[1..]);
    }
  }

  /** A coloured piece of plain text shows as the text. */
  lemma Painted(code: string, t: string)
    requires IsCode(code) && Plain(t)
    ensures Closed(code + t) && StripAnsi(code + t) == t
  {
    StripCode(code);
    StripPlain(t);
    StripConcat(code, t);
  }

  /** Plain text followed by a reset shows as the text. */
  lemma ThenReset(t: string)
    requires Plain(t)
    ensures Closed(t + Reset) && StripAnsi(t + Reset) == t
  {
    AllCodes();
    StripCode(Reset);
    StripPlain(t);
    StripConcat(t, Reset);
  }

  /** A coloured piece of plain text closed by a reset shows as the text. */
  lemma PaintedReset(code: string, t: string)
    requires IsCode(code) && Plain(t)
    ensures Closed(code + t + Reset) && StripAnsi(code + t + Reset) == t
  {
    AllCodes();
    Painted(code, t);
    StripCode(Reset);
    StripConcat(code + t, Reset);
  }
}
