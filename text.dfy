/**
 * The parts of Go's `strings` and `unicode` packages that the formatter uses, over
 * strings seen as sequences of Unicode characters.
 */
module Text {

  /** Go's `unicode.IsSpace`: the Latin-1 spaces and the Unicode White_Space property. */
  predicate IsSpace(c: char) {
    var n := c as int;
    (9 <= n <= 13) || n == 0x20 || n == 0x85 || n == 0xA0 || n == 0x1680
    || (0x2000 <= n <= 0x200A) || n == 0x2028 || n == 0x2029 || n == 0x202F
    || n == 0x205F || n == 0x3000
  }

  predicate AllSpace(s: string) {
    forall i :: 0 <= i < |s| ==> IsSpace(s[i])
  }

  /** Drops the leading white space. */
  function TrimLeft(s: string): string
    decreases |s|
  {
    if s != [] && IsSpace(s[0]) then TrimLeft(s[1..]) else s
  }

  /** `TrimLeft` leaves the suffix that starts at the first non-space. */
  lemma {:induction false} TrimLeftSuffix(s: string)
    ensures var r := TrimLeft(s);
              |r| <= |s| && r == s[|s| - |r|..] && AllSpace(s[..|s| - |r|])
              && (r != [] ==> !IsSpace(r[0]))
    decreases |s|
  {
    if s != [] && IsSpace(s[0]) {
      TrimLeftSuffix(s[1..]);
      var r := TrimLeft(s);
      assert s[1..][..|s| - 1 - |r|] == s[1..|s| - |r|];
    }
  }

  /** Drops the trailing white space. */
  function TrimRight(s: string): string
    decreases |s|
  {
    if s != [] && IsSpace(s[|s| - 1]) then TrimRight(s[..|s| - 1]) else s
  }

  /** `TrimRight` leaves the prefix that ends at the last non-space. */
  lemma {:induction false} TrimRightPrefix(s: string)
    ensures var r := TrimRight(s);
              |r| <= |s| && r == s[..|r|] && AllSpace(s[|r|..])
              && (r != [] ==> !IsSpace(r[|r| - 1]))
    decreases |s|
  {
    if s != [] && IsSpace(s[|s| - 1]) {
      TrimRightPrefix(s[..|s| - 1]);
      var r := TrimRight(s);
      assert s[..|s| - 1][|r|..] == s[|r|..|s| - 1];
      assert s[|r|..] == s[|r|..|s| - 1] + [s[|s| - 1]];
    }
  }

  /**
   * Go's `strings.TrimSpace`: the result is the slice of `s` that is left once the white
   * space at both ends is removed, so it neither starts nor ends with white space.
   */
  function TrimSpace(s: string): string {
    TrimRight(TrimLeft(s))
  }

  /** What `TrimSpace` leaves: the slice of `s` between white space at both ends, with no white space at its own ends. */
  lemma TrimSpaceSlice(s: string)
    ensures var r := TrimSpace(s);
              exists a :: 0 <= a <= |s| - |r| && r == s[a..a + |r|]
                          && AllSpace(s[..a]) && AllSpace(s[a + |r|..])
    ensures var r := TrimSpace(s);
              r != [] ==> !IsSpace(r[0]) && !IsSpace(r[|r| - 1])
  {
    TrimLeftSuffix(s);
    TrimRightPrefix(TrimLeft(s));
    TrimParts(s, TrimLeft(s), TrimSpace(s));
  }

  lemma TrimParts(s: string, left: string, r: string)
    requires |left| <= |s| && left == s[|s| - |left|..] && AllSpace(s[..|s| - |left|])
    requires |r| <= |left| && r == left[..|r|] && AllSpace(left[|r|..])
    ensures var a := |s| - |left|;
              0 <= a <= |s| - |r| && r == s[a..a + |r|]
              && AllSpace(s[..a]) && AllSpace(s[a + |r|..])
  {
    var a := |s| - |left|;
    assert left[|r|..] == s[a + |r|..];
  }

  /**
   * Go's `unicode.ToLower` for the characters whose lower case is an ASCII letter:
   * 'A'..'Z', U+0130 (capital I with dot above) and U+212A (Kelvin sign). Every other
   * character is kept; Go maps some of them to other non-ASCII characters, which makes
   * no difference to a comparison with an ASCII word, the only use made of it here.
   */
  function LowerChar(c: char): char {
    if 'A' <= c <= 'Z' then (c as int + 32) as char
    else if c as int == 0x130 then 'i'
    else if c as int == 0x212A then 'k'
    else c
  }

  /** Go's `strings.ToLower`, character by character. */
  function ToLower(s: string): (r: string)
    ensures |r| == |s|
  {
    seq(|s|, i requires 0 <= i < |s| => LowerChar(s[i]))
  }

  /** The case of ASCII letters: a lower-case letter and its capital. */
  lemma LowerCharCases(c: char)
    ensures 'A' <= c <= 'Z' ==> LowerChar(c) as int == c as int + 32
    ensures 'a' <= c <= 'z' ==> LowerChar(c) == c
    ensures 'a' <= LowerChar(c) <= 'z' ==>
              c == LowerChar(c) || c as int == LowerChar(c) as int - 32
              || c as int == 0x130 || c as int == 0x212A
  {
  }

  /** `v` spells the lower-case ASCII word `w` with any of its letters capitalised. */
  predicate CaseVariant(v: string, w: string) {
    && |v| == |w|
    && (forall i :: 0 <= i < |w| ==> 'a' <= w[i] <= 'z')
    && (forall i :: 0 <= i < |v| ==> v[i] == w[i] || v[i] as int == w[i] as int - 32)
  }

  /** Lower-casing any capitalisation of a lower-case ASCII word gives the word back. */
  lemma ToLowerCaseVariant(v: string, w: string)
    requires CaseVariant(v, w)
    ensures ToLower(v) == w
  {
    forall i | 0 <= i < |v|
      ensures ToLower(v)[i] == w[i]
    {
      LowerCharCases(v[i]);
    }
  }

  /** Go's `strings.HasPrefix`. */
  predicate HasPrefix(s: string, p: string) {
    |p| <= |s| && s[..|p|] == p
  }

  /** Go's `strings.Contains`: `t` occurs in `s` at some position. */
  predicate Contains(s: string, t: string) {
    exists i :: 0 <= i <= |s| - |t| && OccursAt(s, t, i)
  }

  /** `t` occurs in `s` starting at index `i`. */
  predicate OccursAt(s: string, t: string, i: int) {
    0 <= i <= |s| - |t| && s[i..i + |t|] == t
  }

  /** Go's `strings.Join`. */
  function Join(parts: seq<string>, sep: string): string
    decreases |parts|
  {
    if parts == [] then ""
    else if |parts| == 1 then parts[0]
    else parts[0] + sep + Join(parts[1..], sep)
  }
}
