/**
 * The JSON branch of `parseLine` (main.go:73-145): a decoded log object becomes a
 * record. The level comes from `level`, the date from `ts`, the message from `msg`;
 * every other member becomes a field, an `AWSCluster` object flattened to
 * `namespace/name`, other non-string values written out by `json.Marshal`.
 */
module JsonLog {
  import opened Wrappers
  import opened Text
  import opened Json
  import opened LogRecord

  /** The members that are read into the headline and never become fields. */
  predicate Reserved(k: string) {
    k == "level" || k == "ts" || k == "msg"
  }

  /**
   * The level of a JSON record: "" when `level` is absent or not a string, otherwise the
   * letter of the lower-cased word, with "I" for a word no case names.
   */
  function Level(raw: map<string, Json>): (l: string)
    ensures l == "" <==> !("level" in raw && raw["level"].JString?)
    ensures l != "" ==> l in ["I", "W", "E", "D"]
    ensures l != "" && LevelLetter(ToLower(raw["level"].s)) != "" ==>
              l == LevelLetter(ToLower(raw["level"].s))
    ensures l != "" && LevelLetter(ToLower(raw["level"].s)) == "" ==> l == "I"
  {
    if "level" in raw && raw["level"].JString? then
      var letter := LevelLetter(ToLower(raw["level"].s));
      if letter == "" then "I" else letter
    else ""
  }

  /** A `level` member in any capitalisation of a level word gets that word's letter. */
  lemma LevelAnyCase(raw: map<string, Json>, v: string, w: string)
    requires "level" in raw && raw["level"] == JString(v)
    requires IsLevelWord(w) && CaseVariant(v, w)
    ensures Level(raw) == LevelLetter(w)
  {
    LevelWordAnyCase(v, w);
  }

  /** `namespace/name` of an `AWSCluster` object, each part "" when absent or not a string. */
  function ClusterRef(obj: map<string, Json>): string {
    StringMember(obj, "namespace") + "/" + StringMember(obj, "name")
  }

  /**
   * The field a member becomes, whatever the order of the loops: None for a reserved
   * member and for a value `json.Marshal` rejects.
   */
  function FieldValue(raw: map<string, Json>, marshal: Json -> Option<string>, k: string)
    : Option<string>
    requires k in raw
  {
    if Reserved(k) then None
    else if k == "AWSCluster" && raw[k].JObject? then Some(ClusterRef(raw[k].members))
    else match raw[k]
      case JString(s) => Some(s)
      case _ => marshal(raw[k])
  }

  /** The fields the members in `keys` contribute. */
  function FieldsOver(raw: map<string, Json>, marshal: Json -> Option<string>, keys: set<string>)
    : map<string, string>
  {
    map k | k in keys && k in raw && FieldValue(raw, marshal, k).Some? ::
      FieldValue(raw, marshal, k).value
  }

  /**
   * The fields of a JSON record: the reserved members give none, an `AWSCluster` object
   * gives its `namespace/name`, a string gives itself, and any other value gives its
   * marshalled text, or nothing when marshalling fails.
   */
  function Fields(raw: map<string, Json>, marshal: Json -> Option<string>): (f: map<string, string>)
    ensures forall k :: k in f ==> k in raw && !Reserved(k)
    ensures "AWSCluster" in raw && raw["AWSCluster"].JObject? ==>
              "AWSCluster" in f && f["AWSCluster"] ==
                StringMember(raw["AWSCluster"].members, "namespace") + "/"
                + StringMember(raw["AWSCluster"].members, "name")
    ensures forall k :: k in raw && !Reserved(k) && raw[k].JString? ==> k in f && f[k] == raw[k].s
    ensures forall k :: k in raw && !Reserved(k) && !raw[k].JString?
                          && !(k == "AWSCluster" && raw[k].JObject?) ==>
              (k in f <==> marshal(raw[k]).Some?) && (k in f ==> f[k] == marshal(raw[k]).value)
  {
    FieldsOver(raw, marshal, raw.Keys)
  }

  /** Adding one member to the keys adds its field, if it has one. */
  lemma FieldsOverAdd(raw: map<string, Json>, marshal: Json -> Option<string>,
                      keys: set<string>, k: string)
    requires k in raw
    ensures k in keys ==> FieldsOver(raw, marshal, keys + {k}) == FieldsOver(raw, marshal, keys)
    ensures FieldValue(raw, marshal, k).None? ==>
              FieldsOver(raw, marshal, keys + {k}) == FieldsOver(raw, marshal, keys)
    ensures FieldValue(raw, marshal, k).Some? ==>
              FieldsOver(raw, marshal, keys + {k})
                == FieldsOver(raw, marshal, keys)[k := FieldValue(raw, marshal, k).value]
  {
    if k in keys {
      assert keys + {k} == keys;
    }
  }

  /** The record of a decoded JSON line; it has no time and no location. */
  function ToRecord(raw: map<string, Json>, marshal: Json -> Option<string>): (r: Record)
    ensures r.level == Level(raw) && r.fields == Fields(raw, marshal)
    ensures "ts" in raw && raw["ts"].JString? ==> r.date == raw["ts"].s
    ensures !("ts" in raw && raw["ts"].JString?) ==> r.date == ""
    ensures "msg" in raw && raw["msg"].JString? ==> r.message == raw["msg"].s
    ensures !("msg" in raw && raw["msg"].JString?) ==> r.message == ""
    ensures r.time == "" && r.location == ""
  {
    Record(Level(raw), StringMember(raw, "ts"), "", "", StringMember(raw, "msg"),
           Fields(raw, marshal))
  }

  /**
   * Copies `raw[key]` into the fields when it is a string, as each of the named
   * string members in main.go:104-120 is copied.
   */
  method CopyString(raw: map<string, Json>, key: string, fields: map<string, string>,
                    ghost marshal: Json -> Option<string>, ghost done: set<string>)
    returns (fields': map<string, string>, ghost done': set<string>)
    requires !Reserved(key) && key != "AWSCluster"
    requires fields == FieldsOver(raw, marshal, done) && done <= raw.Keys
    ensures fields' == FieldsOver(raw, marshal, done') && done' <= raw.Keys
    ensures done' == done + StringBit(raw, key)
    ensures key in raw && raw[key].JString? ==> fields' == fields[key := raw[key].s]
    ensures !(key in raw && raw[key].JString?) ==> fields' == fields
  {
    fields', done' := fields, done;
    if key in raw && raw[key].JString? {
      fields' := fields[key := raw[key].s];
      done' := done + {key};
      FieldsOverAdd(raw, marshal, done, key);
    }
  }

  /** The members main.go:104-120 copies by name when they are strings. */
  const NamedStrings: set<string> := {"controller", "namespace", "name", "reconcileID", "controllerKind"}

  /** The members the named copies handle: the named strings and an `AWSCluster` object. */
  function NamedDone(raw: map<string, Json>): set<string> {
    (set k | k in NamedStrings && k in raw && raw[k].JString?) + ClusterBit(raw)
  }

  /**
   * The named members of the JSON branch (main.go:103-126): the string members copied
   * as they are, and an `AWSCluster` object flattened to `namespace/name`.
   */
  method CollectNamed(raw: map<string, Json>, ghost marshal: Json -> Option<string>)
    returns (fields: map<string, string>, ghost done: set<string>)
    ensures fields == FieldsOver(raw, marshal, done) && done <= raw.Keys
    ensures done == NamedDone(raw)
    ensures forall k :: k in NamedStrings && k in raw && raw[k].JString? ==>
              k in fields && fields[k] == raw[k].s
    ensures "AWSCluster" in raw && raw["AWSCluster"].JObject? ==>
              "AWSCluster" in fields && fields["AWSCluster"] == ClusterRef(raw["AWSCluster"].members)
    ensures forall k :: k in fields ==> k in NamedStrings || k == "AWSCluster"
  {
    fields, done := CopyNamed(raw, marshal);
    NamedDoneIs(raw, done);
    NamedFields(raw, marshal, done);
  }

  /** Whether `raw[k]` is a string member. */
  function StringBit(raw: map<string, Json>, k: string): set<string> {
    if k in raw && raw[k].JString? then {k} else {}
  }

  /** Whether `raw` has an `AWSCluster` object. */
  function ClusterBit(raw: map<string, Json>): set<string> {
    if "AWSCluster" in raw && raw["AWSCluster"].JObject? then {"AWSCluster"} else {}
  }

  /** Flattens an `AWSCluster` object to its `namespace/name` (main.go:121-126). */
  method CopyCluster(raw: map<string, Json>, fields: map<string, string>,
                     ghost marshal: Json -> Option<string>, ghost done: set<string>)
    returns (fields': map<string, string>, ghost done': set<string>)
    requires fields == FieldsOver(raw, marshal, done) && done <= raw.Keys
    ensures fields' == FieldsOver(raw, marshal, done') && done' <= raw.Keys
    ensures done' == done + ClusterBit(raw)
    ensures "AWSCluster" in raw && raw["AWSCluster"].JObject? ==>
              fields' == fields["AWSCluster" := ClusterRef(raw["AWSCluster"].members)]
    ensures !("AWSCluster" in raw && raw["AWSCluster"].JObject?) ==> fields' == fields
  {
    fields', done' := fields, done;
    if "AWSCluster" in raw && raw["AWSCluster"].JObject? {
      var ac := raw["AWSCluster"].members;
      FieldsOverAdd(raw, marshal, done, "AWSCluster");
      fields' := fields["AWSCluster" := ClusterRef(ac)];
      done' := done + {"AWSCluster"};
    }
  }

  /** The copies themselves, main.go:104-126, one member after the other. */
  method CopyNamed(raw: map<string, Json>, ghost marshal: Json -> Option<string>)
    returns (fields: map<string, string>, ghost done: set<string>)
    ensures fields == FieldsOver(raw, marshal, done) && done <= raw.Keys
    ensures done == StringBit(raw, "controller") + StringBit(raw, "namespace") + StringBit(raw, "name")
                    + StringBit(raw, "reconcileID") + StringBit(raw, "controllerKind")
                    + ClusterBit(raw)
  {
    done := {};
    fields := map[];
    fields, done := CopyString(raw, "controller", fields, marshal, done);
    fields, done := CopyString(raw, "namespace", fields, marshal, done);
    fields, done := CopyString(raw, "name", fields, marshal, done);
    fields, done := CopyString(raw, "reconcileID", fields, marshal, done);
    fields, done := CopyString(raw, "controllerKind", fields, marshal, done);
    fields, done := CopyCluster(raw, fields, marshal, done);
  }

  /** The members the copies handled are those NamedDone describes. */
  lemma NamedDoneIs(raw: map<string, Json>, done: set<string>)
    requires done == StringBit(raw, "controller") + StringBit(raw, "namespace") + StringBit(raw, "name")
                     + StringBit(raw, "reconcileID") + StringBit(raw, "controllerKind")
                     + ClusterBit(raw)
    ensures done == NamedDone(raw)
  {
    forall k | k in NamedDone(raw) ensures k in done {
      if k != "AWSCluster" {
        assert k in NamedStrings;
      }
    }
  }

  /** The fields of the named members: each string copied, the `AWSCluster` object flattened. */
  lemma NamedFields(raw: map<string, Json>, marshal: Json -> Option<string>, done: set<string>)
    requires done == NamedDone(raw)
    ensures forall k :: k in NamedStrings && k in raw && raw[k].JString? ==>
              k in FieldsOver(raw, marshal, done) && FieldsOver(raw, marshal, done)[k] == raw[k].s
    ensures "AWSCluster" in raw && raw["AWSCluster"].JObject? ==>
              "AWSCluster" in FieldsOver(raw, marshal, done)
              && FieldsOver(raw, marshal, done)["AWSCluster"] == ClusterRef(raw["AWSCluster"].members)
    ensures forall k :: k in FieldsOver(raw, marshal, done) ==> k in NamedStrings || k == "AWSCluster"
  {
  }

  /**
   * The field loop of the JSON branch (main.go:103-143): the named members, then every
   * other member in Go's map order, which is chosen here without constraint. The fields
   * do not depend on that order.
   */
  method CollectFields(raw: map<string, Json>, marshal: Json -> Option<string>)
    returns (fields: map<string, string>)
    ensures fields == Fields(raw, marshal)
  {
    ghost var done;
    fields, done := CollectNamed(raw, marshal);
    var remaining := raw.Keys;
    while remaining != {}
      invariant remaining <= raw.Keys
      invariant fields == FieldsOver(raw, marshal, done + (raw.Keys - remaining))
      decreases remaining
    {
      ghost var before := done + (raw.Keys - remaining);
      var k :| k in remaining;
      remaining := remaining - {k};
      assert done + (raw.Keys - remaining) == before + {k};
      FieldsOverAdd(raw, marshal, before, k);
      if Reserved(k) {
        continue;
      }
      if k in fields {
        continue;
      }
      match raw[k]
      case JString(s) =>
        fields := fields[k := s];
      case _ =>
        var b := marshal(raw[k]);
        if b.Some? {
          fields := fields[k := b.value];
        }
    }
    assert done + (raw.Keys - remaining) == raw.Keys;
  }
}
