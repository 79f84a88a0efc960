/**
 * The record filter of `parseLine` (main.go:167-195): a record is kept when it meets
 * every filter that is set. The level filter is a level word, matched case-insensitively
 * against the record's level letter; a word it does not recognise filters nothing. The
 * other three compare a field with exact equality, an absent field counting as "".
 */
module Filter {
  import opened Text
  import opened LogRecord

  /** The values of the `-name`, `-namespace`, `-controller` and `-level` flags. */
  datatype Config = Config(name: string, namespace: string, controller: string, level: string)

  /** The level letter the `-level` flag asks for, or "" when it asks for none. */
  function WantLevel(cfg: Config): string {
    if cfg.level == "" then "" else LevelLetter(ToLower(cfg.level))
  }

  /** The filter as main.go runs it, one early return after another. */
  predicate Keep(r: Record, cfg: Config) {
    if cfg.level != "" && WantLevel(cfg) != "" && r.level != WantLevel(cfg) then false
    else if cfg.name != "" && Field(r.fields, "name") != cfg.name then false
    else if cfg.namespace != "" && Field(r.fields, "namespace") != cfg.namespace then false
    else if cfg.controller != "" && Field(r.fields, "controller") != cfg.controller then false
    else true
  }

  /** One condition a filter imposes. */
  datatype Constraint =
    | LevelIs(letter: string)
    | FieldIs(key: string, value: string)

  predicate Holds(r: Record, c: Constraint) {
    match c
    case LevelIs(letter) => r.level == letter
    case FieldIs(key, value) => Field(r.fields, key) == value
  }

  /** The conditions of the filters that are set. */
  function Constraints(cfg: Config): (cs: seq<Constraint>)
    ensures |cs| <= 4
    ensures cfg == Config("", "", "", "") ==> cs == []
  {
    (if WantLevel(cfg) != "" then [LevelIs(WantLevel(cfg))] else [])
    + (if cfg.name != "" then [FieldIs("name", cfg.name)] else [])
    + (if cfg.namespace != "" then [FieldIs("namespace", cfg.namespace)] else [])
    + (if cfg.controller != "" then [FieldIs("controller", cfg.controller)] else [])
  }

  /** The early returns amount to the conjunction of the conditions of the filters set. */
  lemma KeepIsConjunction(r: Record, cfg: Config)
    ensures Keep(r, cfg) <==> forall c :: c in Constraints(cfg) ==> Holds(r, c)
  {
    var l := if WantLevel(cfg) != "" then [LevelIs(WantLevel(cfg))] else [];
    var n := if cfg.name != "" then [FieldIs("name", cfg.name)] else [];
    var s := if cfg.namespace != "" then [FieldIs("namespace", cfg.namespace)] else [];
    var c := if cfg.controller != "" then [FieldIs("controller", cfg.controller)] else [];
    assert Constraints(cfg) == l + n + s + c;
    forall x ensures x in Constraints(cfg) <==> x in l || x in n || x in s || x in c {
    }
    if !Keep(r, cfg) {
      var bad :=
        if WantLevel(cfg) != "" && r.level != WantLevel(cfg) then LevelIs(WantLevel(cfg))
        else if cfg.name != "" && Field(r.fields, "name") != cfg.name then FieldIs("name", cfg.name)
        else if cfg.namespace != "" && Field(r.fields, "namespace") != cfg.namespace
        then FieldIs("namespace", cfg.namespace)
        else FieldIs("controller", cfg.controller);
      assert bad in Constraints(cfg) && !Holds(r, bad);
    }
  }

  /** With no flag set every record is kept. */
  lemma KeepAllByDefault(r: Record)
    ensures Keep(r, Config("", "", "", ""))
  {
  }

  /** A level word the switch does not recognise filters nothing. */
  lemma UnknownLevelIgnored(r: Record, cfg: Config)
    requires LevelLetter(ToLower(cfg.level)) == ""
    ensures Keep(r, cfg) == Keep(r, cfg.(level := ""))
  {
  }

  /** The `-level` flag is case-insensitive: only its lower case matters. */
  lemma LevelCaseInsensitive(r: Record, cfg: Config, word: string)
    requires ToLower(word) == ToLower(cfg.level) && (word == "" <==> cfg.level == "")
    ensures Keep(r, cfg) == Keep(r, cfg.(level := word))
  {
  }

  /** A `-level` flag written in any capitalisation of a level word filters as the word does. */
  lemma LevelFlagAnyCase(r: Record, cfg: Config, w: string)
    requires IsLevelWord(w) && CaseVariant(cfg.level, w)
    ensures WantLevel(cfg) == LevelLetter(w) && WantLevel(cfg) != ""
    ensures Keep(r, cfg) == Keep(r, cfg.(level := w))
  {
    LevelWordAnyCase(cfg.level, w);
    ToLowerCaseVariant(w, w);
  }

  /** The decision depends on the level and on the name, namespace and controller fields only. */
  lemma KeepLocal(r: Record, r': Record, cfg: Config)
    requires r.level == r'.level
    requires Field(r.fields, "name") == Field(r'.fields, "name")
    requires Field(r.fields, "namespace") == Field(r'.fields, "namespace")
    requires Field(r.fields, "controller") == Field(r'.fields, "controller")
    ensures Keep(r, cfg) == Keep(r', cfg)
  {
  }
}
