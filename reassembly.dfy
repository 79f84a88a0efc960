/**
 * The reading loop of `main` (main.go:272-298). klog may spread one record over several
 * physical lines when an error value is written as an `err=<` block; the loop glues such
 * a block back into one logical line before handing it to `parseLine`.
 *
 * The loop asks three things of each physical line: whether it opens a block, whether
 * it closes one, and what it is once trimmed. `Read` records the answers in a `Line`, and
 * the loop body `Step`, the loop `Run` and the reference `Logical` work on those, so that
 * what they say holds whatever the three answers are. `Logical` says, block by block,
 * which logical lines a sequence of lines makes; `RunIsLogical` proves the loop makes
 * them. `Reassembler` holds the loop's two variables, and `ProcessAll` is the program
 * from the physical lines to what it prints.
 */
module Reassembly {
  import opened Wrappers
  import opened Text
  import opened Json
  import Filter
  import Formatter
  import Render

  /** A line that opens a block: it mentions `err=<` and has no `>` to close it. */
  predicate StartsBlock(line: string) {
    Contains(line, "err=<") && !Contains(line, ">")
  }

  /** A line that closes an open block. */
  predicate EndsBlock(line: string) {
    Contains(line, ">")
  }

  /** A physical line and the answers the loop needs from it. */
  datatype Line = Line(text: string, opens: bool, closes: bool, trimmed: string)

  /** Reads a physical line. */
  function Read(text: string): Line {
    Line(text, StartsBlock(text), EndsBlock(text), TrimSpace(text))
  }

  /** Reads every physical line. */
  function ReadAll(texts: seq<string>): (ls: seq<Line>)
    ensures |ls| == |texts|
    decreases |texts|
  {
    if texts == [] then [] else [Read(texts[0])] + ReadAll(texts[1..])
  }

  /** The loop's two variables: whether an `err=<` block is open, and the text so far. */
  datatype State = State(collecting: bool, buf: string)

  /** The state before the first line. */
  const Initial: State := State(false, "")

  /** The text of an open block after one more continuation line. */
  function Append(buf: string, l: Line): string {
    buf + " " + l.trimmed
  }

  /**
   * One turn of the loop: the new state, and the logical line handed to `parseLine`, if
   * any. Inside an open block every line is a continuation, whatever it mentions.
   */
  function Step(s: State, l: Line): (State, Option<string>) {
    if !s.collecting && l.opens then
      (State(true, l.text), None)
    else if s.collecting then
      var buf := Append(s.buf, l);
      if l.closes then (State(false, buf), Some(buf)) else (State(true, buf), None)
    else
      (s, Some(l.text))
  }

  /** The loop over a sequence of lines: the final state and the logical lines, in order. */
  function Run(s: State, ls: seq<Line>): (State, seq<string>)
    decreases |ls|
  {
    if ls == [] then (s, [])
    else
      var (s', o) := Step(s, ls[0]);
      var (t, rest) := Run(s', ls[1..]);
      (t, ToSeq(o) + rest)
  }

  /** `Run` on a non-empty sequence: one `Step`, then the rest. */
  lemma RunCons(s: State, ls: seq<Line>)
    requires ls != []
    ensures Run(s, ls) ==
              (Run(Step(s, ls[0]).0, ls[1..]).0,
               ToSeq(Step(s, ls[0]).1) + Run(Step(s, ls[0]).0, ls[1..]).1)
  {
  }

  // ---------------------------------------------------------------------------------
  // The reference: logical lines block by block

  /** The index of the first line that closes a block, if there is one. */
  function FirstEnd(ls: seq<Line>): (j: Option<nat>)
    ensures j.Some? ==> j.value < |ls|
    decreases |ls|
  {
    if ls == [] then None
    else if ls[0].closes then Some(0)
    else
      match FirstEnd(ls[1..])
      case None => None
      case Some(j) => Some(j + 1)
  }

  /** `FirstEnd` finds the first closing line, and finds none only when no line closes. */
  lemma {:induction false} FirstEndIsFirst(ls: seq<Line>)
    ensures FirstEnd(ls).Some? ==>
              ls[FirstEnd(ls).value].closes
              && forall k :: 0 <= k < FirstEnd(ls).value ==> !ls[k].closes
    ensures FirstEnd(ls).None? <==> forall k :: 0 <= k < |ls| ==> !ls[k].closes
    decreases |ls|
  {
    if ls != [] && !ls[0].closes {
      FirstEndIsFirst(ls[1..]);
      assert forall k :: 1 <= k < |ls| ==> ls[k] == ls[1..][k - 1];
    }
  }

  /** A block's text: the opening text followed by each continuation line, trimmed. */
  function Joined(buf: string, continuation: seq<Line>): string
    decreases |continuation|
  {
    if continuation == [] then buf else Joined(Append(buf, continuation[0]), continuation[1..])
  }

  /**
   * The logical lines of a sequence of physical lines: a line that opens no block is one
   * logical line; a block from its opening line through the first line that closes it is
   * one; a block that is never closed yields nothing.
   */
  function Logical(ls: seq<Line>): seq<string>
    decreases |ls|
  {
    if ls == [] then []
    else if !ls[0].opens then [ls[0].text] + Logical(ls[1..])
    else
      match FirstEnd(ls[1..])
      case None => []
      case Some(j) => [Joined(ls[0].text, ls[1..j + 2])] + Logical(ls[j + 2..])
  }

  /** No physical line makes more than one logical line. */
  lemma {:induction false} LogicalShorter(ls: seq<Line>)
    ensures |Logical(ls)| <= |ls|
    decreases |ls|
  {
    if ls != [] {
      if !ls[0].opens {
        LogicalShorter(ls[1..]);
      } else {
        match FirstEnd(ls[1..])
        case None =>
        case Some(j) =>
          LogicalShorter(ls[j + 2..]);
      }
    }
  }

  /** What the loop yields from inside an open block holding `buf`. */
  lemma {:induction false} CollectingRun(buf: string, ls: seq<Line>)
    ensures Run(State(true, buf), ls).1 ==
              match FirstEnd(ls)
              case None => []
              case Some(j) => [Joined(buf, ls[..j + 1])] + Logical(ls[j + 1..])
    decreases |ls|
  {
    if ls != [] {
      var buf' := Append(buf, ls[0]);
      RunCons(State(true, buf), ls);
      if ls[0].closes {
        IdleRun(buf', ls[1..]);
        assert ls[..1][0] == ls[0] && ls[..1][1..] == [];
      } else {
        CollectingRun(buf', ls[1..]);
        match FirstEnd(ls[1..])
        case None =>
        case Some(j) =>
          assert ls[..j + 2][0] == ls[0] && ls[..j + 2][1..] == ls[1..][..j + 1];
          assert ls[1..][j + 1..] == ls[j + 2..];
      }
    }
  }

  /** Outside a block the loop yields exactly the logical lines, whatever `buf` holds. */
  lemma {:induction false} IdleRun(buf: string, ls: seq<Line>)
    ensures Run(State(false, buf), ls).1 == Logical(ls)
    decreases |ls|
  {
    if ls != [] {
      RunCons(State(false, buf), ls);
      if ls[0].opens {
        CollectingRun(ls[0].text, ls[1..]);
        match FirstEnd(ls[1..])
        case None =>
        case Some(j) =>
          assert ls[1..][..j + 1] == ls[1..j + 2];
          assert ls[1..][j + 1..] == ls[j + 2..];
      } else {
        IdleRun(buf, ls[1..]);
      }
    }
  }

  /** The loop from its initial state hands `parseLine` exactly the logical lines. */
  lemma RunIsLogical(ls: seq<Line>)
    ensures Run(Initial, ls).1 == Logical(ls)
  {
    IdleRun("", ls);
  }

  /** Input with no `err=<` block reaches `parseLine` line for line. */
  lemma {:induction false} NoBlockUnchanged(texts: seq<string>)
    requires forall i :: 0 <= i < |texts| ==> !StartsBlock(texts[i])
    ensures Logical(ReadAll(texts)) == texts
    decreases |texts|
  {
    if texts != [] {
      NoBlockUnchanged(texts[1..]);
      assert ReadAll(texts)[1..] == ReadAll(texts[1..]);
    }
  }

  /** An opening line and a closing line make one logical line, the second one trimmed. */
  lemma TwoLineBlock(a: string, b: string)
    requires StartsBlock(a) && EndsBlock(b)
    ensures Logical(ReadAll([a, b])) == [a + " " + TrimSpace(b)]
  {
    var ls := ReadAll([a, b]);
    assert [a, b][1..] == [b] && [b][1..] == [];
    assert ReadAll([b]) == [Read(b)] + ReadAll([]);
    assert ls == [Read(a)] + ReadAll([b]);
    assert ls[1..] == [Read(b)] && ls[1..2] == [Read(b)] && ls[2..] == [];
    assert FirstEnd([Read(b)]) == Some(0);
    assert Joined(a, [Read(b)]) == Joined(a + " " + TrimSpace(b), []) by {
      assert [Read(b)][1..] == [];
    }
  }

  /** Running over `a + b` is running over `a`, then over `b` from where `a` left off. */
  lemma {:induction false} RunAppend(s: State, a: seq<Line>, b: seq<Line>)
    ensures Run(s, a + b).0 == Run(Run(s, a).0, b).0
    ensures Run(s, a + b).1 == Run(s, a).1 + Run(Run(s, a).0, b).1
    decreases |a|
  {
    if a == [] {
      assert a + b == b;
    } else {
      var st := Step(s, a[0]);
      assert (a + b)[0] == a[0] && (a + b)[1..] == a[1..] + b;
      RunAppend(st.0, a[1..], b);
      RunCons(s, a + b);
      RunCons(s, a);
    }
  }

  /** Lines none of which closes a block keep an open block open and yield nothing. */
  lemma {:induction false} OpenStays(s: State, ls: seq<Line>)
    requires s.collecting
    requires forall i :: 0 <= i < |ls| ==> !ls[i].closes
    ensures Run(s, ls).1 == []
    ensures Run(s, ls).0.collecting
    decreases |ls|
  {
    if ls != [] {
      RunCons(s, ls);
      OpenStays(Step(s, ls[0]).0, ls[1..]);
    }
  }

  /**
   * A block still open when the input ends is never handed to `parseLine`: whatever came
   * before, the lines of the unclosed block add nothing, and the loop ends collecting.
   */
  lemma UnclosedBlockDropped(done: seq<Line>, open: seq<Line>)
    requires open != [] && open[0].opens
    requires forall i :: 0 <= i < |open| ==> !open[i].closes
    ensures Run(Initial, done + open).1 == Run(Initial, done).1
    ensures Run(Initial, done + open).0.collecting
  {
    RunAppend(Initial, done, open);
    var s := Run(Initial, done).0;
    RunCons(s, open);
    var s' := Step(s, open[0]).0;
    assert s'.collecting && Step(s, open[0]).1.None?;
    OpenStays(s', open[1..]);
  }

  /** Running the loop one line further. */
  lemma RunSnoc(s: State, ls: seq<Line>, l: Line)
    ensures Run(s, ls + [l]).0 == Step(Run(s, ls).0, l).0
    ensures Run(s, ls + [l]).1 == Run(s, ls).1 + ToSeq(Step(Run(s, ls).0, l).1)
  {
    RunAppend(s, ls, [l]);
    var t := Run(s, ls).0;
    RunCons(t, [l]);
    assert [l][1..] == [];
  }

  // ---------------------------------------------------------------------------------
  // The loop's variables as an object

  /** `buf` and `collecting` of `main`, updated line by line. */
  class Reassembler {
    var buf: string
    var collecting: bool

    /** The variables as a value. */
    function Current(): State
      reads this
    {
      State(collecting, buf)
    }

    constructor ()
      ensures Current() == Initial
    {
      buf := "";
      collecting := false;
    }

    /** One turn of the loop: the logical line to hand to `parseLine`, if any. */
    method Feed(line: string) returns (logical: Option<string>)
      modifies this
      ensures (Current(), logical) == Step(old(Current()), Read(line))
    {
      if !collecting && Contains(line, "err=<") && !Contains(line, ">") {
        collecting := true;
        buf := line;
        return None;
      }
      if collecting {
        buf := buf + " " + TrimSpace(line);
        if Contains(line, ">") {
          collecting := false;
          return Some(buf);
        }
        return None;
      }
      return Some(line);
    }
  }

  /** Feeds one physical line to a loop that has read `read` so far and yielded `logical`. */
  method Advance(r: Reassembler, ghost read: seq<Line>, ghost logical: seq<string>, line: string)
    returns (next: Option<string>)
    requires (r.Current(), logical) == Run(Initial, read)
    modifies r
    ensures (r.Current(), logical + ToSeq(next)) == Run(Initial, read + [Read(line)])
  {
    next := r.Feed(line);
    RunSnoc(Initial, read, Read(line));
  }

  // ---------------------------------------------------------------------------------
  // The whole program

  /** The lines written for a sequence of `parseLine` outcomes: each present one, in order. */
  function Written(outcomes: seq<Option<string>>): (w: seq<string>)
    ensures |w| <= |outcomes|
    decreases |outcomes|
  {
    if outcomes == [] then []
    else
      var n := |outcomes| - 1;
      Written(outcomes[..n]) + ToSeq(outcomes[n])
  }

  /** One more outcome adds its line, if any, at the end. */
  lemma WrittenSnoc(outcomes: seq<Option<string>>, o: Option<string>)
    ensures Written(outcomes + [o]) == Written(outcomes) + ToSeq(o)
  {
    assert (outcomes + [o])[..|outcomes|] == outcomes;
  }

  /** What `parseLine` does with each logical line, the fields of the i-th visited in `orders[i]`. */
  function FormatAll(logical: seq<string>, cfg: Filter.Config, codec: Codec, orders: seq<seq<string>>)
    : (outcomes: seq<Option<string>>)
    requires |orders| == |logical|
    ensures |outcomes| == |logical|
    decreases |logical|
  {
    if logical == [] then []
    else
      var n := |logical| - 1;
      FormatAll(logical[..n], cfg, codec, orders[..n]) + [Formatter.FormatLine(logical[n], cfg, codec, orders[n])]
  }

  /** One more logical line adds its outcome at the end. */
  lemma FormatAllSnoc(logical: seq<string>, cfg: Filter.Config, codec: Codec, orders: seq<seq<string>>,
                      line: string, order: seq<string>)
    requires |orders| == |logical|
    ensures FormatAll(logical + [line], cfg, codec, orders + [order]) ==
              FormatAll(logical, cfg, codec, orders) + [Formatter.FormatLine(line, cfg, codec, order)]
  {
    assert (logical + [line])[..|logical|] == logical;
    assert (orders + [order])[..|orders|] == orders;
  }

  /** Formats one logical line and writes what `parseLine` prints. */
  method Emit(line: string, cfg: Filter.Config, codec: Codec, out: seq<string>,
              ghost logical: seq<string>, ghost outcomes: seq<Option<string>>, ghost orders: seq<seq<string>>)
    returns (out': seq<string>, ghost outcomes': seq<Option<string>>, ghost orders': seq<seq<string>>)
    requires |orders| == |logical|
    requires outcomes == FormatAll(logical, cfg, codec, orders) && out == Written(outcomes)
    requires Genuine(logical, codec, outcomes, orders)
    ensures |orders'| == |logical| + 1 && orders'[..|logical|] == orders
    ensures outcomes' == FormatAll(logical + [line], cfg, codec, orders') && out' == Written(outcomes')
    ensures Genuine(logical + [line], codec, outcomes', orders')
  {
    var printed, order := Formatter.ParseLine(line, cfg, codec);
    WrittenSnoc(outcomes, printed);
    FormatAllSnoc(logical, cfg, codec, orders, line, order);
    GenuineSnoc(logical, codec, outcomes, orders, line, printed, order);
    assert (orders + [order])[..|logical|] == orders;
    out', outcomes', orders' := out + ToSeq(printed), outcomes + [printed], orders + [order];
  }

  /**
   * Each map order is a real one: wherever `parseLine` printed a record, the order its
   * key/value loop took lists every field of that record exactly once.
   */
  predicate Genuine(logical: seq<string>, codec: Codec,
                    outcomes: seq<Option<string>>, orders: seq<seq<string>>) {
    && |outcomes| == |logical| && |orders| == |logical|
    && forall i :: 0 <= i < |logical| && outcomes[i].Some? && Formatter.Extract(logical[i], codec).Some? ==>
         Render.IsEnumeration(orders[i], Formatter.Extract(logical[i], codec).value.fields.Keys)
  }

  /** One more logical line with a real order keeps every order real. */
  lemma GenuineSnoc(logical: seq<string>, codec: Codec,
                    outcomes: seq<Option<string>>, orders: seq<seq<string>>,
                    line: string, o: Option<string>, order: seq<string>)
    requires Genuine(logical, codec, outcomes, orders)
    requires o.Some? && Formatter.Extract(line, codec).Some? ==>
               Render.IsEnumeration(order, Formatter.Extract(line, codec).value.fields.Keys)
    ensures Genuine(logical + [line], codec, outcomes + [o], orders + [order])
  {
    var l, c, d := logical + [line], outcomes + [o], orders + [order];
    forall i | 0 <= i < |l| && c[i].Some? && Formatter.Extract(l[i], codec).Some?
      ensures Render.IsEnumeration(d[i], Formatter.Extract(l[i], codec).value.fields.Keys)
    {
      if i < |logical| {
        assert l[i] == logical[i] && c[i] == outcomes[i] && d[i] == orders[i];
      }
    }
  }

  /** Reading one more physical line. */
  lemma {:induction false} ReadAllSnoc(texts: seq<string>, text: string)
    ensures ReadAll(texts + [text]) == ReadAll(texts) + [Read(text)]
    decreases |texts|
  {
    if texts == [] {
      assert [text][1..] == [];
    } else {
      ReadAllSnoc(texts[1..], text);
      assert (texts + [text])[0] == texts[0] && (texts + [text])[1..] == texts[1..] + [text];
    }
  }

  /** Reading the physical lines one further. */
  lemma ReadAllPrefix(lines: seq<string>, i: nat)
    requires i < |lines|
    ensures ReadAll(lines[..i + 1]) == ReadAll(lines[..i]) + [Read(lines[i])]
  {
    ReadAllSnoc(lines[..i], lines[i]);
    assert lines[..i + 1] == lines[..i] + [lines[i]];
  }

  /**
   * `main`: every physical line is fed to the loop and every logical line it yields is
   * formatted. `outcomes` is what `parseLine` does with each logical line, the fields of
   * the i-th visited in `orders[i]`; the output is the lines written.
   */
  method ProcessAll(lines: seq<string>, cfg: Filter.Config, codec: Codec)
    returns (out: seq<string>, ghost outcomes: seq<Option<string>>, ghost orders: seq<seq<string>>)
    ensures |orders| == |Logical(ReadAll(lines))|
    ensures outcomes == FormatAll(Logical(ReadAll(lines)), cfg, codec, orders)
    ensures out == Written(outcomes)
    ensures |out| <= |lines|
    ensures forall i :: 0 <= i < |orders| && outcomes[i].Some?
                        && Formatter.Extract(Logical(ReadAll(lines))[i], codec).Some? ==>
              Render.IsEnumeration(orders[i], Formatter.Extract(Logical(ReadAll(lines))[i], codec).value.fields.Keys)
  {
    var r := new Reassembler();
    ghost var read: seq<Line> := [];
    ghost var logical: seq<string> := [];
    out, outcomes, orders := [], [], [];
    for i := 0 to |lines|
      invariant read == ReadAll(lines[..i])
      invariant (r.Current(), logical) == Run(Initial, read)
      invariant |orders| == |logical|
      invariant outcomes == FormatAll(logical, cfg, codec, orders)
      invariant out == Written(outcomes)
      invariant Genuine(logical, codec, outcomes, orders)
    {
      ReadAllPrefix(lines, i);
      var next := Advance(r, read, logical, lines[i]);
      read := read + [Read(lines[i])];
      if next.Some? {
        out, outcomes, orders := Emit(next.value, cfg, codec, out, logical, outcomes, orders);
        logical := logical + [next.value];
      } else {
        assert logical + ToSeq(next) == logical;
      }
    }
    assert lines[..|lines|] == lines;
    RunIsLogical(read);
    LogicalShorter(read);
  }
}
