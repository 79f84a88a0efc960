/**
 * The output half of `parseLine` (main.go:197-264): the coloured headline, then the
 * structured key/value section behind red pipes. The order in which Go ranges over the
 * fields map is not fixed, so the rendering takes that order as a parameter.
 */
module Render {
  import opened Text
  import opened Ansi
  import opened LogRecord

  /** The keys left out of the key/value section because the headline shows them. */
  const OmitFromKV: set<string> :=
    {"controller", "controllerGroup", "controllerKind", "namespace", "name", "err"}

  /** The keys shown first, in this order, when present. */
  const OrderedKeys: seq<string> := ["cluster", "AWSCluster", "machinePool", "AWSMachinePool"]

  const RedPipe: string := Red + " | " + Reset

  // ---------------------------------------------------------------------------------
  // The headline

  /** The message, with the `err` field merged into it for an error record. */
  function Message(r: Record): (m: string)
    ensures m != r.message <==> r.level == "E" && "err" in r.fields
    ensures r.level == "E" && "err" in r.fields ==> m == r.message + ": " + r.fields["err"]
  {
    if r.level == "E" && "err" in r.fields then r.message + ": " + r.fields["err"]
    else r.message
  }

  /** The `controller[@location]` slot: the `@location` part only when there is a location. */
  function SlotText(r: Record): (s: string)
    ensures s == Field(r.fields, "controller") <==> r.location == ""
    ensures r.location != "" ==> s == Field(r.fields, "controller") + "@" + r.location
  {
    var controller := Field(r.fields, "controller");
    if r.location != "" then controller + "@" + r.location else controller
  }

  function NsName(r: Record): string {
    Field(r.fields, "namespace") + "/" + Field(r.fields, "name")
  }

  function NsColor(r: Record): string {
    if r.level == "E" then Red else Green
  }

  function MsgColor(r: Record): string {
    if r.level == "E" then Red else BrightWhite
  }

  /** The headline: the level, date, time, slot, `namespace/name` and message, space-separated. */
  function Headline(r: Record): string {
    var level := ColorForLevel(r.level) + r.level;
    var slot := SlotText(r) + Reset;
    var nsName := NsColor(r) + NsName(r) + Reset;
    var message := MsgColor(r) + Message(r) + Reset;
    level + " " + r.date + " " + r.time + " " + slot + " " + nsName + " " + message
  }

  // ---------------------------------------------------------------------------------
  // The key/value section

  /** The position of a key in OrderedKeys, and 4 for every other key. */
  function Rank(k: string): nat {
    if k == "cluster" then 0
    else if k == "AWSCluster" then 1
    else if k == "machinePool" then 2
    else if k == "AWSMachinePool" then 3
    else 4
  }

  /** The keys of `keys` that are fields, in the order of `keys`: the first loop. */
  function Present(keys: seq<string>, fields: map<string, string>): seq<string>
    decreases |keys|
  {
    if keys == [] then []
    else
      var k := keys[|keys| - 1];
      Present(keys[..|keys| - 1], fields) + (if k in fields then [k] else [])
  }

  /**
   * Whether the second loop shows a field: it is neither omitted nor printed by the
   * first loop, which prints exactly the keys of OrderedKeys that are fields.
   */
  predicate Listed(k: string, fields: map<string, string>) {
    k in fields && k !in OmitFromKV && k !in OrderedKeys
  }

  /** The keys the second loop shows, visiting the fields in `order`. */
  function Rest(order: seq<string>, fields: map<string, string>): seq<string>
    decreases |order|
  {
    if order == [] then []
    else
      var k := order[|order| - 1];
      Rest(order[..|order| - 1], fields) + (if Listed(k, fields) then [k] else [])
  }

  /** The keys of the key/value section, in the order they are shown. */
  function KvKeys(order: seq<string>, fields: map<string, string>): seq<string> {
    Present(OrderedKeys, fields) + Rest(order, fields)
  }

  /** One `key: value` entry, the key part and the value part each grey. */
  function KvPart(k: string, v: string): string {
    var key := Gray + (k + ":") + Reset;
    var value := Gray + v + Reset;
    key + " " + value
  }

  function KvParts(keys: seq<string>, fields: map<string, string>): (parts: seq<string>)
    ensures |parts| == |keys|
  {
    seq(|keys|, i requires 0 <= i < |keys| => KvPart(keys[i], Field(fields, keys[i])))
  }

  /** The formatted record, the key/value section behind a red pipe only when it is not empty. */
  function Formatted(r: Record, order: seq<string>): string {
    var parts := KvParts(KvKeys(order, r.fields), r.fields);
    if |parts| > 0 then Headline(r) + RedPipe + Join(parts, RedPipe) else Headline(r)
  }

  /**
   * The printed line starts with the headline, and the red pipe follows it exactly when
   * the key/value section has an entry.
   */
  lemma PipeOnlyWithParts(r: Record, order: seq<string>)
    ensures HasPrefix(Formatted(r, order), Headline(r))
    ensures Formatted(r, order) == Headline(r) <==> KvKeys(order, r.fields) == []
    ensures KvKeys(order, r.fields) != [] ==> HasPrefix(Formatted(r, order), Headline(r) + RedPipe)
  {
    var parts := KvParts(KvKeys(order, r.fields), r.fields);
    if |parts| > 0 {
      Extended(Headline(r), RedPipe, Join(parts, RedPipe));
    }
  }

  lemma Extended(h: string, p: string, t: string)
    requires p != []
    ensures HasPrefix(h + p + t, h) && HasPrefix(h + p + t, h + p) && h + p + t != h
  {
    var f := h + p + t;
    assert f[..|h + p|] == h + p;
    assert f[..|h|] == h;
    assert |f| > |h|;
  }

  // ---------------------------------------------------------------------------------
  // The order of the key/value section

  /** `order` lists every key of `keys` exactly once: one possible Go map order. */
  predicate IsEnumeration(order: seq<string>, keys: set<string>) {
    && Distinct(order)
    && (forall k :: k in order ==> k in keys)
    && (forall k :: k in keys ==> k in order)
  }

  /** No element occurs twice. */
  predicate Distinct(s: seq<string>) {
    forall i, j :: 0 <= i < j < |s| ==> s[i] != s[j]
  }

  /** The ranks of a sequence strictly increase. */
  predicate RankSorted(s: seq<string>) {
    forall i, j :: 0 <= i < j < |s| ==> Rank(s[i]) < Rank(s[j])
  }

  lemma PresentSnoc(keys: seq<string>, k: string, fields: map<string, string>)
    ensures Present(keys + [k], fields) == Present(keys, fields) + (if k in fields then [k] else [])
  {
    assert (keys + [k])[..|keys|] == keys;
  }

  /** The first loop keeps the keys that are fields, in their order. */
  lemma {:induction false} PresentSpec(keys: seq<string>, fields: map<string, string>)
    ensures forall k :: k in Present(keys, fields) <==> k in keys && k in fields
    ensures RankSorted(keys) ==> RankSorted(Present(keys, fields))
    decreases |keys|
  {
    if keys != [] {
      var init, last := keys[..|keys| - 1], keys[|keys| - 1];
      assert keys == init + [last];
      PresentSnoc(init, last, fields);
      PresentSpec(init, fields);
      if RankSorted(keys) {
        assert RankSorted(init);
        assert forall k :: k in init ==> Rank(k) < Rank(last);
      }
    }
  }

  lemma RestSnoc(order: seq<string>, k: string, fields: map<string, string>)
    ensures Rest(order + [k], fields) == Rest(order, fields) + (if Listed(k, fields) then [k] else [])
  {
    assert (order + [k])[..|order|] == order;
  }

  /** The second loop keeps the listed fields, each once when the order repeats none. */
  lemma {:induction false} RestSpec(order: seq<string>, fields: map<string, string>)
    ensures forall k :: k in Rest(order, fields) <==> k in order && Listed(k, fields)
    ensures Distinct(order) ==> Distinct(Rest(order, fields))
    decreases |order|
  {
    if order != [] {
      var init, last := order[..|order| - 1], order[|order| - 1];
      assert order == init + [last];
      RestSnoc(init, last, fields);
      RestSpec(init, fields);
      if Distinct(order) {
        assert Distinct(init);
        assert last !in init;
      }
    }
  }

  lemma OrderedKeysRanked()
    ensures RankSorted(OrderedKeys)
    ensures forall k :: k in OrderedKeys <==> Rank(k) < 4
  {
    assert Rank(OrderedKeys[0]) == 0 && Rank(OrderedKeys[1]) == 1;
    assert Rank(OrderedKeys[2]) == 2 && Rank(OrderedKeys[3]) == 3;
  }

  /** No priority key is omitted. */
  lemma PriorityShown()
    ensures forall k :: k in OrderedKeys ==> k !in OmitFromKV
  {
  }

  /** Every key of the section is a field, and the priority keys come first. */
  lemma KvKeysParts(order: seq<string>, fields: map<string, string>)
    ensures forall k :: k in KvKeys(order, fields) ==> k in fields
    ensures forall k :: k in Present(OrderedKeys, fields) <==> k in OrderedKeys && k in fields
    ensures forall k :: k in Rest(order, fields) <==> k in order && Listed(k, fields)
    ensures RankSorted(Present(OrderedKeys, fields))
    ensures Distinct(order) ==> Distinct(Rest(order, fields))
  {
    OrderedKeysRanked();
    PresentSpec(OrderedKeys, fields);
    RestSpec(order, fields);
  }

  /**
   * The key/value section shows every field outside OmitFromKV, each once, the
   * present keys of OrderedKeys first and in that order, whatever the map order.
   */
  lemma KvKeysSpec(order: seq<string>, fields: map<string, string>)
    requires IsEnumeration(order, fields.Keys)
    ensures forall k :: k in KvKeys(order, fields) <==> k in fields && k !in OmitFromKV
    ensures Distinct(KvKeys(order, fields))
    ensures var kv := KvKeys(order, fields);
              forall i, j :: 0 <= i < j < |kv| ==> Rank(kv[i]) <= Rank(kv[j])
  {
    KvKeysParts(order, fields);
    OrderedKeysRanked();
    PriorityShown();
    var p, q := Present(OrderedKeys, fields), Rest(order, fields);
    assert forall k :: k in q ==> Rank(k) == 4;
    assert forall k :: k in p ==> Rank(k) < 4;
    SortedJoin(p, q);
  }

  /** The section is empty exactly when every field is one the headline shows. */
  lemma KvKeysEmpty(order: seq<string>, fields: map<string, string>)
    requires IsEnumeration(order, fields.Keys)
    ensures KvKeys(order, fields) == [] <==> forall k :: k in fields ==> k in OmitFromKV
  {
    KvKeysSpec(order, fields);
    var kv := KvKeys(order, fields);
    if kv != [] {
      assert kv[0] in kv;
    }
  }

  /** Keys ranked below 4 and sorted, then distinct keys of rank 4. */
  lemma SortedJoin(p: seq<string>, q: seq<string>)
    requires RankSorted(p) && Distinct(q)
    requires forall k :: k in p ==> Rank(k) < 4
    requires forall k :: k in q ==> Rank(k) == 4
    ensures Distinct(p + q)
    ensures forall i, j :: 0 <= i < j < |p + q| ==> Rank((p + q)[i]) <= Rank((p + q)[j])
  {
    var kv := p + q;
    forall i, j | 0 <= i < j < |kv| ensures kv[i] != kv[j] && Rank(kv[i]) <= Rank(kv[j]) {
      if j < |p| {
        assert kv[i] == p[i] && kv[j] == p[j];
      } else if i >= |p| {
        assert kv[i] == q[i - |p|] && kv[j] == q[j - |p|];
      } else {
        assert kv[i] in p && kv[j] in q;
      }
    }
  }

  lemma ExampleKeys()
    ensures "cluster" in OrderedKeys && "AWSCluster" in OrderedKeys && "other" !in OrderedKeys
    ensures "other" !in OmitFromKV
    ensures Rank("cluster") == 0 && Rank("AWSCluster") == 1
  {
  }

  /** With the fields `AWSCluster`, `cluster` and `other`, every map order shows cluster first. */
  lemma OrderExample(order: seq<string>, fields: map<string, string>)
    requires fields.Keys == {"AWSCluster", "cluster", "other"}
    requires IsEnumeration(order, fields.Keys)
    ensures KvKeys(order, fields) == ["cluster", "AWSCluster", "other"]
  {
    PresentExample(fields);
    RestExample(order, fields);
  }

  lemma PresentExample(fields: map<string, string>)
    requires fields.Keys == {"AWSCluster", "cluster", "other"}
    ensures Present(OrderedKeys, fields) == ["cluster", "AWSCluster"]
  {
    OrderedKeysRanked();
    PresentSpec(OrderedKeys, fields);
    ExampleKeys();
    var p := Present(OrderedKeys, fields);
    assert forall k :: k in p ==> k == "cluster" || k == "AWSCluster";
    Two(p, "cluster", "AWSCluster");
  }

  lemma RestExample(order: seq<string>, fields: map<string, string>)
    requires fields.Keys == {"AWSCluster", "cluster", "other"}
    requires IsEnumeration(order, fields.Keys)
    ensures Rest(order, fields) == ["other"]
  {
    RestSpec(order, fields);
    ExampleKeys();
    var q := Rest(order, fields);
    assert forall k :: k in q ==> k == "other";
    One(q, "other");
  }

  /** A sequence without repetitions has as many elements as its set of elements. */
  lemma {:induction false} DistinctCard(s: seq<string>)
    requires Distinct(s)
    ensures |set k | k in s| == |s|
    decreases |s|
  {
    if s != [] {
      var init, last := s[..|s| - 1], s[|s| - 1];
      assert s == init + [last];
      assert Distinct(init) && last !in init;
      DistinctCard(init);
      assert (set k | k in s) == (set k | k in init) + {last};
    }
  }

  /** A rank-sorted sequence holding exactly two keys of different ranks lists them by rank. */
  lemma Two(s: seq<string>, a: string, b: string)
    requires RankSorted(s) && a in s && b in s && Rank(a) < Rank(b)
    requires forall k :: k in s ==> k == a || k == b
    ensures s == [a, b]
  {
    assert Distinct(s);
    DistinctCard(s);
    assert (set k | k in s) == {a, b};
  }

  /** A sequence without repetitions whose only key is `a` is `[a]`. */
  lemma One(s: seq<string>, a: string)
    requires Distinct(s) && a in s && forall k :: k in s ==> k == a
    ensures s == [a]
  {
    DistinctCard(s);
    assert (set k | k in s) == {a};
  }

  // ---------------------------------------------------------------------------------
  // What a terminal shows

  /** The record holds no escape character. */
  predicate PlainRecord(r: Record) {
    && Plain(r.level) && Plain(r.date) && Plain(r.time) && Plain(r.location)
    && Plain(r.message)
    && forall k :: k in r.fields ==> Plain(k) && Plain(r.fields[k])
  }

  /** The headline as shown. */
  function PlainHeadline(r: Record): string {
    r.level + " " + r.date + " " + r.time + " " + SlotText(r) + " " + NsName(r) + " " + Message(r)
  }

  /** The `key: value` entries as shown. */
  function PlainKvParts(keys: seq<string>, fields: map<string, string>): (parts: seq<string>)
    ensures |parts| == |keys|
  {
    seq(|keys|, i requires 0 <= i < |keys| => keys[i] + ": " + Field(fields, keys[i]))
  }

  /** The formatted record as shown: the same text, no colours, and `|` for the red pipes. */
  function Display(r: Record, order: seq<string>): string {
    var kv := PlainKvParts(KvKeys(order, r.fields), r.fields);
    if |kv| > 0 then PlainHeadline(r) + " | " + Join(kv, " | ") else PlainHeadline(r)
  }

  lemma KvPartShows(k: string, v: string)
    requires Plain(k) && Plain(v)
    ensures Closed(KvPart(k, v)) && StripAnsi(KvPart(k, v)) == k + ": " + v
  {
    AllCodes();
    var key := Gray + (k + ":") + Reset;
    var value := Gray + v + Reset;
    PaintedReset(Gray, k + ":");
    PaintedReset(Gray, v);
    StripPlain(" ");
    StripConcat(key, " ");
    StripConcat(key + " ", value);
  }

  /** Two closed pieces separated by a space show as the two stripped pieces so separated. */
  lemma StripSpaced(a: string, b: string)
    requires Closed(a) && Closed(b)
    ensures Closed(a + " " + b)
    ensures StripAnsi(a + " " + b) == StripAnsi(a) + " " + StripAnsi(b)
  {
    StripPlain(" ");
    StripConcat(a, " ");
    StripConcat(a + " ", b);
  }

  lemma HeadlinePieces(r: Record)
    requires PlainRecord(r)
    ensures Closed(ColorForLevel(r.level) + r.level)
    ensures StripAnsi(ColorForLevel(r.level) + r.level) == r.level
    ensures Closed(r.date) && StripAnsi(r.date) == r.date
    ensures Closed(r.time) && StripAnsi(r.time) == r.time
    ensures Closed(SlotText(r) + Reset) && StripAnsi(SlotText(r) + Reset) == SlotText(r)
    ensures Closed(NsColor(r) + NsName(r) + Reset)
    ensures StripAnsi(NsColor(r) + NsName(r) + Reset) == NsName(r)
    ensures Closed(MsgColor(r) + Message(r) + Reset)
    ensures StripAnsi(MsgColor(r) + Message(r) + Reset) == Message(r)
  {
    AllCodes();
    Painted(ColorForLevel(r.level), r.level);
    StripPlain(r.date);
    StripPlain(r.time);
    ThenReset(SlotText(r));
    PaintedReset(NsColor(r), NsName(r));
    PaintedReset(MsgColor(r), Message(r));
  }

  lemma HeadlineShows(r: Record)
    requires PlainRecord(r)
    ensures Closed(Headline(r)) && StripAnsi(Headline(r)) == PlainHeadline(r)
  {
    HeadlinePieces(r);
    var level := ColorForLevel(r.level) + r.level;
    var slot := SlotText(r) + Reset;
    var nsName := NsColor(r) + NsName(r) + Reset;
    var message := MsgColor(r) + Message(r) + Reset;
    StripSpaced(level, r.date);
    StripSpaced(level + " " + r.date, r.time);
    StripSpaced(level + " " + r.date + " " + r.time, slot);
    StripSpaced(level + " " + r.date + " " + r.time + " " + slot, nsName);
    StripSpaced(level + " " + r.date + " " + r.time + " " + slot + " " + nsName, message);
  }

  lemma KvPartsShow(keys: seq<string>, fields: map<string, string>)
    requires forall k :: k in keys ==> k in fields
    requires forall k :: k in fields ==> Plain(k) && Plain(fields[k])
    ensures forall i :: 0 <= i < |keys| ==> Closed(KvParts(keys, fields)[i])
    ensures StripEach(KvParts(keys, fields)) == PlainKvParts(keys, fields)
  {
    var parts := KvParts(keys, fields);
    forall i | 0 <= i < |keys|
      ensures Closed(parts[i]) && StripAnsi(parts[i]) == PlainKvParts(keys, fields)[i]
    {
      assert keys[i] in keys;
      KvPartShows(keys[i], Field(fields, keys[i]));
    }
  }

  /**
   * Rendering only adds colour: once the escape codes are removed, the output is the
   * headline and the `key: value` entries joined by plain text.
   */
  lemma Displayed(r: Record, order: seq<string>)
    requires PlainRecord(r)
    ensures StripAnsi(Formatted(r, order)) == Display(r, order)
  {
    HeadlineShows(r);
    var keys := KvKeys(order, r.fields);
    var parts := KvParts(keys, r.fields);
    if |parts| > 0 {
      KvKeysParts(order, r.fields);
      KvPartsShow(keys, r.fields);
      AllCodes();
      PaintedReset(Red, " | ");
      StripJoin(parts, RedPipe);
      StripConcat(Headline(r), RedPipe);
      StripConcat(Headline(r) + RedPipe, Join(parts, RedPipe));
    }
  }

  // ---------------------------------------------------------------------------------
  // The two loops

  lemma KvPartsSnoc(keys: seq<string>, k: string, fields: map<string, string>)
    ensures KvParts(keys + [k], fields) == KvParts(keys, fields) + [KvPart(k, Field(fields, k))]
  {
  }

  /**
   * The first key/value loop (main.go:241-250): the present keys of OrderedKeys, in
   * that order, with the set of keys it printed.
   */
  method OrderedParts(fields: map<string, string>) returns (parts: seq<string>, printed: set<string>)
    ensures parts == KvParts(Present(OrderedKeys, fields), fields)
    ensures forall k :: k in printed <==> k in OrderedKeys && k in fields
  {
    parts := [];
    printed := {};
    for i := 0 to |OrderedKeys|
      invariant parts == KvParts(Present(OrderedKeys[..i], fields), fields)
      invariant forall k :: k in printed <==> k in OrderedKeys[..i] && k in fields
    {
      var k := OrderedKeys[i];
      assert OrderedKeys[..i + 1] == OrderedKeys[..i] + [k];
      PresentSnoc(OrderedKeys[..i], k, fields);
      if k in fields {
        KvPartsSnoc(Present(OrderedKeys[..i], fields), k, fields);
        parts := parts + [KvPart(k, fields[k])];
        printed := printed + {k};
      }
    }
    assert OrderedKeys[..|OrderedKeys|] == OrderedKeys;
  }

  /**
   * The key/value loops of main.go:239-257: the present keys of OrderedKeys, then the
   * remaining fields in Go's map order, which is chosen here without constraint and
   * returned as `order`.
   */
  method BuildKvParts(fields: map<string, string>) returns (parts: seq<string>, ghost order: seq<string>)
    ensures IsEnumeration(order, fields.Keys)
    ensures parts == KvParts(KvKeys(order, fields), fields)
    ensures parts == [] <==> forall k :: k in fields ==> k in OmitFromKV
  {
    var first, printed := OrderedParts(fields);
    parts, order := RemainingParts(fields, first, printed);
    KvKeysEmpty(order, fields);
  }

  /** The second loop, main.go:252-257, appending to the entries of the first. */
  method RemainingParts(fields: map<string, string>, first: seq<string>, printed: set<string>)
    returns (parts: seq<string>, ghost order: seq<string>)
    requires first == KvParts(Present(OrderedKeys, fields), fields)
    requires forall k :: k in printed <==> k in OrderedKeys && k in fields
    ensures IsEnumeration(order, fields.Keys)
    ensures parts == KvParts(KvKeys(order, fields), fields)
  {
    parts := first;
    order := [];
    var remaining := fields.Keys;
    while remaining != {}
      invariant remaining <= fields.Keys
      invariant Distinct(order)
      invariant forall k :: k in order <==> k in fields && k !in remaining
      invariant parts == KvParts(Present(OrderedKeys, fields) + Rest(order, fields), fields)
      decreases remaining
    {
      var k :| k in remaining;
      remaining := remaining - {k};
      ghost var before := order;
      order := order + [k];
      RestSnoc(before, k, fields);
      if k !in OmitFromKV && k !in printed {
        KvPartsSnoc(Present(OrderedKeys, fields) + Rest(before, fields), k, fields);
        parts := parts + [KvPart(k, fields[k])];
      }
    }
  }
}
