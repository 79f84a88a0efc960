/**
 * `parseLine` as a whole (main.go:62-265): a logical line is extracted into a record by
 * the JSON branch or the klog branch, filtered, and rendered; a line neither branch
 * understands is written out unchanged. The output is None when the filter drops the
 * record, and otherwise the one line printed.
 */
module Formatter {
  import opened Wrappers
  import opened Text
  import opened Json
  import opened LogRecord
  import Klog
  import JsonLog
  import opened Filter
  import opened Render

  /** Whether `parseLine` takes the JSON branch: the trimmed line starts with `{`. */
  predicate IsJsonLine(line: string) {
    HasPrefix(TrimSpace(line), "{")
  }

  /** The record of a klog header match: the level letter and the captured groups. */
  function KlogRecord(h: Klog.Header): Record {
    Record([h.level], h.date, h.time, h.location, h.message, Klog.FieldsOf(Klog.Pairs(h.tail)))
  }

  /** The record `parseLine` extracts from a line, or None when it passes the line through. */
  function Extract(line: string, codec: Codec): Option<Record> {
    if IsJsonLine(line) then
      match codec.decode(TrimSpace(line))
      case None => None
      case Some(raw) => Some(JsonLog.ToRecord(raw, codec.marshal))
    else
      match Klog.MatchHeader(line)
      case None => None
      case Some(h) => Some(KlogRecord(h))
  }

  /**
   * What `parseLine` prints for a line, the fields of a record visited in `order`:
   * the line itself when it cannot be extracted, nothing when the record is filtered out.
   */
  function FormatLine(line: string, cfg: Config, codec: Codec, order: seq<string>): Option<string> {
    match Extract(line, codec)
    case None => Some(line)
    case Some(r) => if Keep(r, cfg) then Some(Formatted(r, order)) else None
  }

  /**
   * `parseLine`: extraction through the two field loops, the filter, then the headline
   * and the key/value loops. `order` is the map order the key/value loop took.
   */
  method ParseLine(line: string, cfg: Config, codec: Codec) returns (out: Option<string>, ghost order: seq<string>)
    ensures out == FormatLine(line, cfg, codec, order)
    ensures out.Some? && Extract(line, codec).Some? ==>
              IsEnumeration(order, Extract(line, codec).value.fields.Keys)
    ensures Extract(line, codec).None? ==> out == Some(line)
    ensures out.None? <==> Extract(line, codec).Some? && !Keep(Extract(line, codec).value, cfg)
    ensures out.Some? && Extract(line, codec).Some? ==>
              HasPrefix(out.value, Headline(Extract(line, codec).value))
  {
    order := [];
    var trimmed := TrimSpace(line);
    var r: Record;
    if HasPrefix(trimmed, "{") {
      var decoded := codec.decode(trimmed);
      if decoded.None? {
        return Some(line), order;
      }
      var raw := decoded.value;
      var fields := JsonLog.CollectFields(raw, codec.marshal);
      r := Record(JsonLog.Level(raw), StringMember(raw, "ts"), "", "", StringMember(raw, "msg"), fields);
    } else {
      var matches := Klog.MatchHeader(line);
      if matches.None? {
        return Some(line), order;
      }
      var h := matches.value;
      var fields := Klog.CollectFields(Klog.Pairs(h.tail));
      r := Record([h.level], h.date, h.time, h.location, h.message, fields);
    }
    assert Extract(line, codec) == Some(r);
    if !Keep(r, cfg) {
      return None, order;
    }
    var parts;
    parts, order := BuildKvParts(r.fields);
    var headline := Headline(r);
    PipeOnlyWithParts(r, order);
    if |parts| > 0 {
      out := Some(headline + RedPipe + Join(parts, RedPipe));
    } else {
      out := Some(headline);
    }
  }

  // ---------------------------------------------------------------------------------
  // Pass-through

  /** A line neither branch can extract a record from is written out unchanged. */
  lemma NotExtractedPassesThrough(line: string, cfg: Config, codec: Codec, order: seq<string>)
    requires Extract(line, codec).None?
    ensures FormatLine(line, cfg, codec, order) == Some(line)
  {
  }

  /** A JSON-looking line that does not decode is written out unchanged. */
  lemma UndecodableJsonPassesThrough(line: string, cfg: Config, codec: Codec, order: seq<string>)
    requires IsJsonLine(line) && codec.decode(TrimSpace(line)).None?
    ensures FormatLine(line, cfg, codec, order) == Some(line)
  {
  }

  /**
   * A line that is not JSON-looking fails extraction exactly when no decomposition of
   * it fits the header pattern, and is then written out unchanged, whatever the filter.
   */
  lemma UnmatchedKlogPassesThrough(line: string, cfg: Config, codec: Codec, order: seq<string>)
    requires !IsJsonLine(line)
    ensures Extract(line, codec).None? <==>
              forall h :: Klog.WellFormed(h) ==> Klog.Spell(h) != line
    ensures Extract(line, codec).None? ==> FormatLine(line, cfg, codec, order) == Some(line)
  {
    Klog.HeaderSound(line);
    forall h | Klog.WellFormed(h) && Klog.Spell(h) == line
      ensures Klog.MatchHeader(line).Some?
    {
      Klog.HeaderComplete(h);
    }
  }

  // ---------------------------------------------------------------------------------
  // The location slot

  /** A JSON record has no location, so its slot is the controller alone. */
  lemma JsonSlotWithoutLocation(line: string, codec: Codec)
    requires IsJsonLine(line) && Extract(line, codec).Some?
    ensures Extract(line, codec).value.location == ""
    ensures SlotText(Extract(line, codec).value) == Field(Extract(line, codec).value.fields, "controller")
  {
  }

  /** A klog record always has a location, so its slot always carries `@location`. */
  lemma KlogSlotWithLocation(line: string, codec: Codec)
    requires !IsJsonLine(line) && Extract(line, codec).Some?
    ensures Extract(line, codec).value.location != ""
    ensures var r := Extract(line, codec).value;
              SlotText(r) == Field(r.fields, "controller") + "@" + r.location
  {
    Klog.HeaderSound(line);
  }

  /** Output is withheld exactly when a record is extracted and the filter rejects it. */
  lemma DroppedIffFiltered(line: string, cfg: Config, codec: Codec, order: seq<string>)
    ensures FormatLine(line, cfg, codec, order).None? <==>
              Extract(line, codec).Some? && !Keep(Extract(line, codec).value, cfg)
  {
  }

  // ---------------------------------------------------------------------------------
  // The two levels

  /**
   * A JSON record whose level word the filter's switch recognises passes a `-level` flag
   * naming the same word in any case: the two switches agree.
   */
  lemma JsonLevelMatchesFilter(raw: map<string, Json>, marshal: Json -> Option<string>, cfg: Config)
    requires "level" in raw && raw["level"].JString?
    requires LevelLetter(ToLower(raw["level"].s)) != ""
    requires cfg.level != "" && ToLower(cfg.level) == ToLower(raw["level"].s)
    ensures Keep(JsonLog.ToRecord(raw, marshal), cfg) == Keep(JsonLog.ToRecord(raw, marshal), cfg.(level := ""))
  {
  }

  /** A klog fatal record (`F`) is dropped by every recognised `-level` flag. */
  lemma FatalNeverMatchesLevel(h: Klog.Header, cfg: Config)
    requires h.level == 'F' && WantLevel(cfg) != ""
    ensures !Keep(KlogRecord(h), cfg)
  {
    var want := WantLevel(cfg);
    assert want == "I" || want == "W" || want == "E" || want == "D";
    assert KlogRecord(h).level == "F";
  }
}
