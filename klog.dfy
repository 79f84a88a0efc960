/**
 * The klog text encoding (main.go:32-35, main.go:147-164): a hand-written matcher for
 * the header pattern and a scanner for the `key=value` pairs in the tail, following the
 * two regular expressions under Go's RE2 semantics. There `\s` is `[\t\n\f\r ]`, `\d` and
 * `\w` are ASCII, a negated class such as `[^"]` also matches a newline, and `.` does not.
 */
module Klog {
  import opened Wrappers
  import opened Text

  /** The character classes used by the two patterns. */
  datatype Class = Space | Digit | TimeChar | NotBracket | NotQuote | Word

  predicate In(c: char, k: Class) {
    match k
    case Space => c == '\t' || c == '\n' || c as int == 12 || c == '\r' || c == ' '
    case Digit => '0' <= c <= '9'
    case TimeChar => ('0' <= c <= '9') || c == ':' || c == '.'
    case NotBracket => c != ']'
    case NotQuote => c != '"'
    case Word => ('0' <= c <= '9') || ('A' <= c <= 'Z') || ('a' <= c <= 'z') || c == '_'
  }

  predicate All(s: string, k: Class) {
    forall i :: 0 <= i < |s| ==> In(s[i], k)
  }

  // Small facts about slices and concatenation, each proved on its own.

  lemma SplitAt(s: string, n: nat)
    requires n <= |s|
    ensures s == s[..n] + s[n..]
  {
  }

  lemma Parts(a: string, b: string)
    ensures (a + b)[..|a|] == a && (a + b)[|a|..] == b
  {
  }

  lemma PartsSep(a: string, c: char, b: string)
    ensures (a + ([c] + b))[..|a|] == a && (a + ([c] + b))[|a| + 1..] == b
    ensures |a| < |a + ([c] + b)| && (a + ([c] + b))[|a|] == c
  {
  }

  lemma Regroup(a: string, b: string, c: string, d: string)
    ensures a + ((b + c) + d) == (a + b) + (c + d)
  {
  }

  lemma AllConcat(a: string, b: string, k: Class)
    ensures All(a + b, k) <==> All(a, k) && All(b, k)
  {
    if All(a, k) && All(b, k) {
      forall i | 0 <= i < |a + b| ensures In((a + b)[i], k) {
        if i >= |a| { assert (a + b)[i] == b[i - |a|]; }
      }
    }
    if All(a + b, k) {
      forall i | 0 <= i < |a| ensures In(a[i], k) {
        assert (a + b)[i] == a[i];
      }
      forall i | 0 <= i < |b| ensures In(b[i], k) {
        assert (a + b)[|a| + i] == b[i];
      }
    }
  }

  /** The length of the longest prefix of `s` in class `k` (what a greedy `k+` takes). */
  function Span(s: string, k: Class): (n: nat)
    ensures n <= |s| && All(s[..n], k)
    ensures n < |s| ==> !In(s[n], k)
    decreases |s|
  {
    if s != [] && In(s[0], k) then
      var n := 1 + Span(s[1..], k);
      assert s[..n] == [s[0]] + s[1..][..n - 1];
      n
    else 0
  }

  lemma {:induction false} SpanConcat(a: string, b: string, k: Class)
    requires All(a, k)
    ensures Span(a + b, k) == |a| + Span(b, k)
    decreases |a|
  {
    if a != [] {
      assert (a + b)[1..] == a[1..] + b;
      SpanConcat(a[1..], b, k);
    } else {
      assert a + b == b;
    }
  }

  lemma SpanStops(a: string, b: string, k: Class)
    requires All(a, k) && (b == [] || !In(b[0], k))
    ensures Span(a + b, k) == |a|
  {
    SpanConcat(a, b, k);
  }

  /** A greedy run of at least `min` characters of class `k`, and the text after it. */
  function Take(s: string, k: Class, min: nat): (r: Option<(string, string)>)
    ensures r.Some? ==> r.value.0 + r.value.1 == s && All(r.value.0, k) && |r.value.0| >= min
    ensures r.Some? ==> r.value.1 == [] || !In(r.value.1[0], k)
  {
    var n := Span(s, k);
    if n < min then None else SplitAt(s, n); Some((s[..n], s[n..]))
  }

  lemma TakeRun(a: string, b: string, k: Class, min: nat)
    requires All(a, k) && |a| >= min && (b == [] || !In(b[0], k))
    ensures Take(a + b, k, min) == Some((a, b))
  {
    SpanStops(a, b, k);
    Parts(a, b);
  }

  /** A run of class `k` followed by text that starts outside `k`. */
  lemma TakeBefore(a: string, c: string, rest: string, k: Class)
    requires |a| >= 1 && All(a, k) && c != [] && !In(c[0], k)
    ensures Take(a + (c + rest), k, 1) == Some((a, c + rest))
  {
    TakeRun(a, c + rest, k, 1);
  }

  // ---------------------------------------------------------------------------------
  // The header: ^([IWEF])(\d{4})\s+([\d:.]+)\s+\d+\s+([^\]]+)]\s+"([^"]+)"(.*)$

  /** Every piece of a header match, separators and process id included. */
  datatype Header = Header(
    level: char, date: string, sep1: string, time: string, sep2: string, pid: string,
    sep3: string, location: string, sep4: string, message: string, tail: string)

  /** `<sep3><location>]<rest>` */
  function SpellLocation(sep3: string, location: string, rest: string): string {
    sep3 + (location + ("]" + rest))
  }

  /** `<sep4>"<message>"<tail>` */
  function SpellMessage(sep4: string, message: string, tail: string): string {
    sep4 + ("\"" + (message + ("\"" + tail)))
  }

  /** The text from the process id on. */
  function SpellFromPid(h: Header): string {
    h.pid + SpellLocation(h.sep3, h.location, SpellMessage(h.sep4, h.message, h.tail))
  }

  /** The line a header match spells. */
  function Spell(h: Header): string {
    [h.level] + (h.date + (h.sep1 + (h.time + (h.sep2 + SpellFromPid(h)))))
  }

  /** The pieces are what the pattern's groups and separators allow. */
  predicate WellFormed(h: Header) {
    && h.level in "IWEF"
    && |h.date| == 4 && All(h.date, Digit)
    && |h.sep1| >= 1 && All(h.sep1, Space)
    && |h.time| >= 1 && All(h.time, TimeChar)
    && |h.sep2| >= 1 && All(h.sep2, Space)
    && |h.pid| >= 1 && All(h.pid, Digit)
    && |h.sep3| >= 1 && All(h.sep3, Space)
    && |h.location| >= 1 && All(h.location, NotBracket)
    && |h.sep4| >= 1 && All(h.sep4, Space)
    && |h.message| >= 1 && All(h.message, NotQuote)
    && '\n' !in h.tail
  }

  /**
   * `\s+([^\]]+)]` after the process id: the separator, the location and the text after
   * the closing bracket. The greedy `\s+` takes the whole white-space run unless a `]`
   * follows it at once; then it gives back its last character to the location.
   */
  function TakeLocation(s: string): (r: Option<(string, string, string)>)
    ensures r.Some? ==> SpellLocation(r.value.0, r.value.1, r.value.2) == s
    ensures r.Some? ==> |r.value.0| >= 1 && All(r.value.0, Space)
    ensures r.Some? ==> |r.value.1| >= 1 && All(r.value.1, NotBracket)
  {
    var n := Span(s, Space);
    var after := s[n..];
    SplitAt(s, n);
    if n == 0 || after == [] then None
    else if after[0] != ']' then
      var m := Span(after, NotBracket);
      if m == |after| then None
      else
        SplitAt(after, m);
        assert after[m..] == "]" + after[m + 1..];
        Some((s[..n], after[..m], after[m + 1..]))
    else if n >= 2 then
      var sep, loc := s[..n - 1], [s[n - 1]];
      assert s[..n] == sep + loc;
      assert after == "]" + after[1..];
      Regroup(sep, loc, [], after);
      Some((sep, loc, after[1..]))
    else None
  }

  /** `\s+"([^"]+)"(.*)$` after the location: separator, message and tail. */
  function TakeMessage(s: string): (r: Option<(string, string, string)>)
    ensures r.Some? ==> SpellMessage(r.value.0, r.value.1, r.value.2) == s
    ensures r.Some? ==> |r.value.0| >= 1 && All(r.value.0, Space)
    ensures r.Some? ==> |r.value.1| >= 1 && All(r.value.1, NotQuote)
    ensures r.Some? ==> '\n' !in r.value.2
  {
    var n := Span(s, Space);
    var after := s[n..];
    SplitAt(s, n);
    if n == 0 || after == [] || after[0] != '"' then None
    else
      var t := after[1..];
      var m := Span(t, NotQuote);
      if m == 0 || m == |t| || '\n' in t[m + 1..] then None
      else
        SplitAt(t, m);
        assert t[m..] == "\"" + t[m + 1..];
        assert after == "\"" + t;
        Some((s[..n], t[..m], t[m + 1..]))
  }

  /** The header matcher: `logHeaderRegex.FindStringSubmatch(line)`. */
  function MatchHeader(line: string): Option<Header> {
    if |line| < 5 || line[0] !in "IWEF" || !All(line[1..5], Digit) then None
    else
      var r1 :- Take(line[5..], Space, 1);
      var r2 :- Take(r1.1, TimeChar, 1);
      var r3 :- Take(r2.1, Space, 1);
      var r4 :- Take(r3.1, Digit, 1);
      var loc :- TakeLocation(r4.1);
      var msg :- TakeMessage(loc.2);
      Some(Header(line[0], line[1..5], r1.0, r2.0, r3.0, r4.0, loc.0, loc.1,
                  msg.0, msg.1, msg.2))
  }

  /**
   * Whatever the matcher returns is a well-formed decomposition of the line (the
   * converse is HeaderComplete).
   */
  lemma HeaderSound(line: string)
    ensures MatchHeader(line).Some? ==>
              WellFormed(MatchHeader(line).value) && Spell(MatchHeader(line).value) == line
  {
    if |line| >= 5 && line[0] in "IWEF" && All(line[1..5], Digit) {
      var o1 := Take(line[5..], Space, 1);
      if o1.Some? {
        var r1 := o1.value;
        var o2 := Take(r1.1, TimeChar, 1);
        if o2.Some? {
          var r2 := o2.value;
          var o3 := Take(r2.1, Space, 1);
          if o3.Some? {
            var r3 := o3.value;
            var o4 := Take(r3.1, Digit, 1);
            if o4.Some? {
              var r4 := o4.value;
              var o5 := TakeLocation(r4.1);
              if o5.Some? {
                var loc := o5.value;
                var o6 := TakeMessage(loc.2);
                if o6.Some? {
                  var msg := o6.value;
                  MatchSteps(line, r1, r2, r3, r4, loc, msg);
                  var h := Header(line[0], line[1..5], r1.0, r2.0, r3.0, r4.0,
                                  loc.0, loc.1, msg.0, msg.1, msg.2);
                  assert SpellFromPid(h) == r3.1;
                  assert h.sep1 + (h.time + (h.sep2 + SpellFromPid(h))) == line[5..];
                  HeadSplit(line);
                }
              }
            }
          }
        }
      }
    }
  }

  lemma HeadSplit(line: string)
    requires |line| >= 5
    ensures line == [line[0]] + (line[1..5] + line[5..])
  {
  }

  lemma HeadParts(level: char, date: string, rest: string)
    requires |date| == 4
    ensures ([level] + (date + rest))[0] == level
    ensures ([level] + (date + rest))[1..5] == date && ([level] + (date + rest))[5..] == rest
  {
  }

  lemma TakeLocationComplete(sep3: string, location: string, rest: string)
    requires |sep3| >= 1 && All(sep3, Space)
    requires |location| >= 1 && All(location, NotBracket)
    ensures TakeLocation(SpellLocation(sep3, location, rest)).Some?
    ensures TakeLocation(SpellLocation(sep3, location, rest)).value.2 == rest
    ensures !In(location[0], Space) ==>
              TakeLocation(SpellLocation(sep3, location, rest)) == Some((sep3, location, rest))
  {
    var s := SpellLocation(sep3, location, rest);
    var tail := [']'] + rest;
    var i := Span(location, Space);
    var lead, loc' := location[..i], location[i..];
    SplitAt(location, i);
    Regroup(sep3, lead, loc', tail);
    AllConcat(sep3, lead, Space);
    AllConcat(lead, loc', NotBracket);
    var n := |sep3| + i;
    Parts(sep3 + lead, loc' + tail);
    if i < |location| {
      SpanStops(sep3 + lead, loc' + tail, Space);
      SpanStops(loc', tail, NotBracket);
      PartsSep(loc', ']', rest);
    } else {
      assert loc' == [] && loc' + tail == tail;
      SpanStops(sep3 + lead, tail, Space);
    }
  }

  lemma TakeMessageComplete(sep4: string, message: string, tail: string)
    requires |sep4| >= 1 && All(sep4, Space)
    requires |message| >= 1 && All(message, NotQuote)
    requires '\n' !in tail
    ensures TakeMessage(SpellMessage(sep4, message, tail)) == Some((sep4, message, tail))
  {
    var t := message + ("\"" + tail);
    SpanStops(sep4, "\"" + t, Space);
    PartsSep(sep4, '"', t);
    SpanStops(message, "\"" + tail, NotQuote);
    PartsSep(message, '"', tail);
  }

  /** The matcher on a well-formed decomposition: it differs at most in the location split. */
  lemma MatchSpelled(h: Header)
    requires WellFormed(h)
    ensures TakeLocation(SpellLocation(h.sep3, h.location,
              SpellMessage(h.sep4, h.message, h.tail))).Some?
    ensures var loc := TakeLocation(SpellLocation(h.sep3, h.location,
                         SpellMessage(h.sep4, h.message, h.tail))).value;
              MatchHeader(Spell(h)) == Some(h.(sep3 := loc.0, location := loc.1))
  {
    var s5 := SpellMessage(h.sep4, h.message, h.tail);
    var s4 := SpellLocation(h.sep3, h.location, s5);
    var s3 := h.pid + s4;
    var s2 := h.sep2 + s3;
    var s1 := h.time + s2;
    var line := [h.level] + (h.date + (h.sep1 + s1));
    assert line == Spell(h);
    HeadParts(h.level, h.date, h.sep1 + s1);
    assert !In(h.time[0], Space) && !In(h.sep2[0], TimeChar);
    assert !In(h.pid[0], Space) && !In(h.sep3[0], Digit);
    TakeBefore(h.sep1, h.time, s2, Space);
    TakeBefore(h.time, h.sep2, s3, TimeChar);
    TakeBefore(h.sep2, h.pid, s4, Space);
    TakeBefore(h.pid, h.sep3, h.location + ("]" + s5), Digit);
    TakeLocationComplete(h.sep3, h.location, s5);
    var loc := TakeLocation(s4).value;
    TakeMessageComplete(h.sep4, h.message, h.tail);
    MatchSteps(line, (h.sep1, s1), (h.time, s2), (h.sep2, s3), (h.pid, s4), loc,
               (h.sep4, h.message, h.tail));
  }

  /** MatchHeader unfolded: the result when every step is known to succeed. */
  lemma MatchSteps(line: string, r1: (string, string), r2: (string, string),
                   r3: (string, string), r4: (string, string),
                   loc: (string, string, string), msg: (string, string, string))
    requires |line| >= 5 && line[0] in "IWEF" && All(line[1..5], Digit)
    requires Take(line[5..], Space, 1) == Some(r1)
    requires Take(r1.1, TimeChar, 1) == Some(r2)
    requires Take(r2.1, Space, 1) == Some(r3)
    requires Take(r3.1, Digit, 1) == Some(r4)
    requires TakeLocation(r4.1) == Some(loc)
    requires TakeMessage(loc.2) == Some(msg)
    ensures MatchHeader(line) == Some(Header(line[0], line[1..5], r1.0, r2.0, r3.0, r4.0,
                                             loc.0, loc.1, msg.0, msg.1, msg.2))
  {
  }

  /**
   * Every well-formed decomposition of a line is found: the matcher succeeds on the line
   * and agrees with the decomposition on every piece but the split between the third
   * separator and the location, and on that too when the location does not start with
   * white space.
   */
  lemma HeaderComplete(h: Header)
    requires WellFormed(h)
    ensures MatchHeader(Spell(h)).Some?
    ensures var m := MatchHeader(Spell(h)).value;
              m.level == h.level && m.date == h.date && m.time == h.time
              && m.message == h.message && m.tail == h.tail
    ensures !In(h.location[0], Space) ==> MatchHeader(Spell(h)) == Some(h)
  {
    MatchSpelled(h);
    TakeLocationComplete(h.sep3, h.location, SpellMessage(h.sep4, h.message, h.tail));
  }

  // ---------------------------------------------------------------------------------
  // The tail: (\w+)=(?:<([^>]+)>|"((?:[^"\\]|\\.)*)"|(\{.*?\}))

  /** Which alternative matched, with the text between its delimiters. */
  datatype Value =
    | Angle(inner: string)   // group 2: the text between < and >
    | Quoted(inner: string)  // group 3: the text between the quotes, escapes kept
    | Brace(inner: string)   // group 4 is "{" + inner + "}"

  datatype Pair = Pair(key: string, value: Value)

  /** The text of a quoted value: characters other than `"` and `\`, and escape pairs. */
  predicate Escaped(x: string)
    decreases |x|
  {
    if x == [] then true
    else if x[0] == '\\' then |x| >= 2 && x[1] != '\n' && Escaped(x[2..])
    else x[0] != '"' && Escaped(x[1..])
  }

  /** `[^>]+>`: the text before the first `>` (any other character may be in it), and after it. */
  function AngleEnd(t: string): (r: Option<(string, string)>)
    ensures r.Some? ==> r.value.0 + (">" + r.value.1) == t && '>' !in r.value.0
    decreases |t|
  {
    if t == [] then None
    else if t[0] == '>' then Some(([], t[1..]))
    else
      var r :- AngleEnd(t[1..]);
      Some(([t[0]] + r.0, r.1))
  }

  /**
   * `((?:[^"\\]|\\.)*)"`: the text before the closing quote, and after it. A backslash
   * takes the next character with it, unless that is a newline or the end of the text.
   */
  function QuotedEnd(t: string): (r: Option<(string, string)>)
    ensures r.Some? ==> r.value.0 + ("\"" + r.value.1) == t && Escaped(r.value.0)
    decreases |t|
  {
    if t == [] then None
    else if t[0] == '"' then Some(([], t[1..]))
    else if t[0] == '\\' then
      if |t| >= 2 && t[1] != '\n' then
        var r :- QuotedEnd(t[2..]);
        var x := [t[0], t[1]] + r.0;
        assert x[2..] == r.0;
        Some((x, r.1))
      else None
    else
      var r :- QuotedEnd(t[1..]);
      var x := [t[0]] + r.0;
      assert x[1..] == r.0;
      Some((x, r.1))
  }

  /** `.*?\}`: the text before the first `}`, provided it holds no newline, and after it. */
  function BraceEnd(t: string): (r: Option<(string, string)>)
    ensures r.Some? ==> r.value.0 + ("}" + r.value.1) == t
    ensures r.Some? ==> '}' !in r.value.0 && '\n' !in r.value.0
    decreases |t|
  {
    if t == [] || t[0] == '\n' then None
    else if t[0] == '}' then Some(([], t[1..]))
    else
      var r :- BraceEnd(t[1..]);
      Some(([t[0]] + r.0, r.1))
  }

  /** What a pair's value may look like, alternative by alternative. */
  predicate ValueShape(v: Value) {
    match v
    case Angle(x) => |x| >= 1 && '>' !in x
    case Quoted(x) => Escaped(x)
    case Brace(x) => '}' !in x && '\n' !in x
  }

  predicate PairShape(p: Pair) {
    |p.key| >= 1 && All(p.key, Word) && ValueShape(p.value)
  }

  /** A value as it appears in the text, followed by `rest`. */
  function SpellValue(v: Value, rest: string): string {
    match v
    case Angle(x) => "<" + (x + (">" + rest))
    case Quoted(x) => "\"" + (x + ("\"" + rest))
    case Brace(x) => "{" + (x + ("}" + rest))
  }

  /** `key=value` followed by `rest`. */
  function SpellPair(p: Pair, rest: string): string {
    p.key + ("=" + SpellValue(p.value, rest))
  }

  /** The value of the alternative that starts `v`, and the text after it. */
  function ValueAt(v: string): (r: Option<(Value, string)>)
    ensures r.Some? ==> ValueShape(r.value.0) && SpellValue(r.value.0, r.value.1) == v
  {
    if v == [] then None
    else if v[0] == '<' then
      var r :- AngleEnd(v[1..]);
      if r.0 == [] then None else Some((Angle(r.0), r.1))
    else if v[0] == '"' then
      var r :- QuotedEnd(v[1..]);
      Some((Quoted(r.0), r.1))
    else if v[0] == '{' then
      var r :- BraceEnd(v[1..]);
      Some((Brace(r.0), r.1))
    else None
  }

  /** The match of the key/value pattern that starts at the first character of `s`, and the text after it. */
  function PairAt(s: string): (r: Option<(Pair, string)>)
    ensures r.Some? ==> PairShape(r.value.0) && SpellPair(r.value.0, r.value.1) == s
  {
    var k := Span(s, Word);
    SplitAt(s, k);
    if k == 0 || k == |s| || s[k] != '=' then None
    else
      assert s[k..] == "=" + s[k + 1..];
      var r :- ValueAt(s[k + 1..]);
      Some((Pair(s[..k], r.0), r.1))
  }

  /**
   * `FindAllStringSubmatch(tail, -1)`: the leftmost match, then the leftmost match after
   * its end, and so on; where no match starts, the search moves on by one character.
   */
  function Pairs(s: string): (ps: seq<Pair>)
    decreases |s|
  {
    if s == [] then []
    else
      match PairAt(s)
      case Some((p, rest)) =>
        assert |rest| < |s| by { assert |SpellPair(p, rest)| > |rest|; }
        [p] + Pairs(rest)
      case None => Pairs(s[1..])
  }

  /** Every pair the scanner finds has the shape the pattern allows. */
  lemma {:induction false} PairsShaped(s: string)
    ensures forall i :: 0 <= i < |Pairs(s)| ==> PairShape(Pairs(s)[i])
    decreases |s|
  {
    if s != [] {
      match PairAt(s)
      case Some((p, rest)) =>
        assert |rest| < |s| by { assert |SpellPair(p, rest)| > |rest|; }
        PairsShaped(rest);
        assert Pairs(s) == [p] + Pairs(rest);
      case None =>
        PairsShaped(s[1..]);
    }
  }

  /** Text made of pairs, each behind one space, as klog writes them. */
  function SpellPairs(ps: seq<Pair>): string
    decreases |ps|
  {
    if ps == [] then "" else " " + SpellPair(ps[0], SpellPairs(ps[1..]))
  }

  lemma {:induction false} AngleEndOf(x: string, rest: string)
    requires '>' !in x
    ensures AngleEnd(x + (">" + rest)) == Some((x, rest))
    decreases |x|
  {
    var t := x + (">" + rest);
    if x != [] {
      assert t[0] == x[0] && t[1..] == x[1..] + (">" + rest);
      AngleEndOf(x[1..], rest);
      assert [x[0]] + x[1..] == x;
    } else {
      assert t == ">" + rest && t[1..] == rest;
    }
  }

  lemma {:induction false} QuotedEndOf(x: string, rest: string)
    requires Escaped(x)
    ensures QuotedEnd(x + ("\"" + rest)) == Some((x, rest))
    decreases |x|
  {
    var t := x + ("\"" + rest);
    if x != [] {
      assert t[0] == x[0];
      if x[0] == '\\' {
        assert t[1] == x[1] && t[2..] == x[2..] + ("\"" + rest);
        QuotedEndOf(x[2..], rest);
        assert [x[0], x[1]] + x[2..] == x;
      } else {
        assert t[1..] == x[1..] + ("\"" + rest);
        QuotedEndOf(x[1..], rest);
        assert [x[0]] + x[1..] == x;
      }
    } else {
      assert t == "\"" + rest && t[1..] == rest;
    }
  }

  lemma {:induction false} BraceEndOf(x: string, rest: string)
    requires '}' !in x && '\n' !in x
    ensures BraceEnd(x + ("}" + rest)) == Some((x, rest))
    decreases |x|
  {
    var t := x + ("}" + rest);
    if x != [] {
      assert t[0] == x[0] && t[1..] == x[1..] + ("}" + rest);
      BraceEndOf(x[1..], rest);
      assert [x[0]] + x[1..] == x;
    } else {
      assert t == "}" + rest && t[1..] == rest;
    }
  }

  lemma ValueAtSpelled(v: Value, rest: string)
    requires ValueShape(v)
    ensures ValueAt(SpellValue(v, rest)) == Some((v, rest))
  {
    match v
    case Angle(x) => AngleEndOf(x, rest);
    case Quoted(x) => QuotedEndOf(x, rest);
    case Brace(x) => BraceEndOf(x, rest);
  }

  /** A pair written out is matched back, whatever text follows it. */
  lemma PairAtSpelled(p: Pair, rest: string)
    requires PairShape(p)
    ensures PairAt(SpellPair(p, rest)) == Some((p, rest))
  {
    var v := SpellValue(p.value, rest);
    SpanStops(p.key, "=" + v, Word);
    PartsSep(p.key, '=', v);
    ValueAtSpelled(p.value, rest);
  }

  /** The scanner reads back exactly the pairs of a tail written as klog writes it. */
  lemma {:induction false} PairsRoundTrip(ps: seq<Pair>)
    requires forall i :: 0 <= i < |ps| ==> PairShape(ps[i])
    ensures Pairs(SpellPairs(ps)) == ps
    decreases |ps|
  {
    if ps != [] {
      var rest := SpellPairs(ps[1..]);
      var s := SpellPairs(ps);
      SkipSpace(SpellPair(ps[0], rest));
      PairAtSpelled(ps[0], rest);
      PairsFound(SpellPair(ps[0], rest), ps[0], rest);
      PairsRoundTrip(ps[1..]);
      assert [ps[0]] + ps[1..] == ps;
    }
  }

  /** No match starts at a space: the scanner moves on to the next character. */
  lemma SkipSpace(t: string)
    ensures Pairs(" " + t) == Pairs(t)
  {
    var s := " " + t;
    assert s[0] == ' ' && s[1..] == t;
    assert Span(s, Word) == 0;
  }

  /** A match at the start is the first pair; the scan goes on after it. */
  lemma PairsFound(s: string, p: Pair, rest: string)
    requires PairAt(s) == Some((p, rest))
    ensures Pairs(s) == [p] + Pairs(rest)
  {
    assert |SpellPair(p, rest)| > |rest|;
  }

  /**
   * The value `parseLine` stores for a match (main.go:156-163): group 2 trimmed when it is
   * non-empty, else group 3 when it is non-empty, else group 4.
   */
  function Stored(v: Value): string {
    var g2 := if v.Angle? then v.inner else "";
    var g3 := if v.Quoted? then v.inner else "";
    var g4 := if v.Brace? then "{" + v.inner + "}" else "";
    if g2 != "" then TrimSpace(g2) else if g3 != "" then g3 else g4
  }

  /**
   * For every value the scanner can produce, the switch stores the angle-bracket text
   * trimmed, the quoted text without its quotes and the brace text with its braces.
   */
  lemma StoredByAlternative(v: Value)
    requires ValueShape(v)
    ensures v.Angle? ==> Stored(v) == TrimSpace(v.inner)
    ensures v.Quoted? ==> Stored(v) == v.inner
    ensures v.Brace? ==> Stored(v) == "{" + v.inner + "}"
  {
  }

  /** The field map the loop of main.go:155-164 builds: one assignment per match, in order. */
  function FieldsOf(ps: seq<Pair>): map<string, string>
    decreases |ps|
  {
    if ps == [] then map[]
    else FieldsOf(ps[..|ps| - 1])[ps[|ps| - 1].key := Stored(ps[|ps| - 1].value)]
  }

  /** No later match has the key of match `i`. */
  predicate LastWithKey(ps: seq<Pair>, i: nat)
    requires i < |ps|
  {
    forall j :: i < j < |ps| ==> ps[j].key != ps[i].key
  }

  /** The keys of the field map are the keys of the matches. */
  lemma {:induction false} FieldsDomain(ps: seq<Pair>)
    ensures FieldsOf(ps).Keys == set p | p in ps :: p.key
    decreases |ps|
  {
    if ps != [] {
      var init := ps[..|ps| - 1];
      FieldsDomain(init);
      assert ps == init + [ps[|ps| - 1]];
    }
  }

  /** A key's value comes from the last match with that key. */
  lemma {:induction false} FieldsLastWins(ps: seq<Pair>, i: nat)
    requires i < |ps| && LastWithKey(ps, i)
    ensures ps[i].key in FieldsOf(ps) && FieldsOf(ps)[ps[i].key] == Stored(ps[i].value)
    decreases |ps|
  {
    if i < |ps| - 1 {
      var init := ps[..|ps| - 1];
      assert init[i] == ps[i];
      assert LastWithKey(init, i) by {
        forall j | i < j < |init| ensures init[j].key != init[i].key {
          assert init[j] == ps[j];
        }
      }
      FieldsLastWins(init, i);
      assert ps[|ps| - 1].key != ps[i].key;
    }
  }

  /** The loop of main.go:155-164. */
  method CollectFields(ps: seq<Pair>) returns (fields: map<string, string>)
    ensures fields == FieldsOf(ps)
  {
    fields := map[];
    for i := 0 to |ps|
      invariant fields == FieldsOf(ps[..i])
    {
      assert ps[..i + 1][..i] == ps[..i];
      fields := fields[ps[i].key := Stored(ps[i].value)];
    }
    assert ps[..|ps|] == ps;
  }
}
