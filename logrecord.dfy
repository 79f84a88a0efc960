/** The normalised record both log encodings are turned into (the locals of `parseLine`). */
module LogRecord {
  import opened Text

  datatype Record = Record(
    level: string,
    date: string,
    time: string,
    location: string,
    message: string,
    fields: map<string, string>)

  /** Go's `fields[key]` on a `map[string]string`: the value, or "" when the key is absent. */
  function Field(fields: map<string, string>, key: string): string {
    if key in fields then fields[key] else ""
  }

  /**
   * The level words both switches on a lower-cased level recognise (main.go:82-90 and
   * main.go:171-179), as the one-letter level; "" for any other word.
   */
  function LevelLetter(word: string): string {
    match word
    case "info" => "I"
    case "warning" => "W"
    case "warn" => "W"
    case "error" => "E"
    case "debug" => "D"
    case _ => ""
  }

  /** A level word both switches recognise. */
  predicate IsLevelWord(w: string) {
    w == "info" || w == "warning" || w == "warn" || w == "error" || w == "debug"
  }

  /**
   * The switches lower-case the word first, so every capitalisation of a level word
   * (`INFO`, `Warn`, `eRRoR`) names the same level.
   */
  lemma LevelWordAnyCase(v: string, w: string)
    requires IsLevelWord(w) && CaseVariant(v, w)
    ensures LevelLetter(ToLower(v)) == LevelLetter(w) && LevelLetter(w) != ""
  {
    ToLowerCaseVariant(v, w);
  }
}
