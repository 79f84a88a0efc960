# waluigi log formatter, modelled in Dafny

waluigi reads controller-runtime logs on standard input and writes one coloured,
human-readable line per log record. It understands two encodings:
- JSON objects, one per line;
- klog text lines (`I0102 15:04:05.000000 1 file.go:10] "message" key="value" ...`).

Each logical line goes through three stages:
1. **Extract.** The line becomes a record: a one-letter level, date, time, location, message
   and a string-to-string field map. A line that neither encoding accepts is written out
   unchanged.
2. **Filter.** Four optional filters on name, namespace, controller and level may drop the
   record.
3. **Render.** The record is printed as a headline
   `<level> <date> <time> <controller>[@<location>] <namespace>/<name> <message>`,
   then a key/value section behind a red `|`.

Before any of this, the reading loop joins a multi-line `err=<` ... `>` block into one logical
line.

The modules follow these parts:
- `Ansi`: the colour constants, `colorForLevel`, and a function that strips the escape
  sequences, used to state what a terminal shows.
- `Json`: the decoded JSON value, plus the two `encoding/json` calls taken as given
  functions.
- `LogRecord`: the record, and the level words both switches recognise.
- `Klog`: hand-written matchers for the header pattern and for the `key=value` scanner,
  proved against a grammar of the line.
- `JsonLog`: the JSON branch, as a function and as the methods that fill the map the way
  main.go does.
- `Filter`: the keep/drop decision, proved to be a conjunction of constraints.
- `Render`: the headline and the key/value section. It proves the key order, that no key
  repeats and which keys are omitted, and it gives the text as shown on a terminal.
- `Formatter`: `parseLine` as a whole, both as the function `FormatLine` and as the method
  `ParseLine`.
- `Reassembly`: the reading loop of `main`, as the class `Reassembler` with its `buf` and
  `collecting` fields, and `ProcessAll` from physical lines to printed lines.

Go's map iteration order is not fixed. Wherever main.go ranges over a map, the model takes
either a ghost order, which may be any enumeration of the map's keys, or an unconstrained
choice of the next key (`JsonLog.CollectFields`). Every property is proved for all of them.

Behaviour of main.go worth noting:
- A JSON record whose `level` member is missing or is not a string keeps the level `""`
  (main.go:81-94). Its header colour is then blue, and a recognised `-level` filter drops it.
- The klog location is the text between the whitespace after the process id and the first
  `]`, and it includes any `[`. The pattern has no opening bracket. When a `]` follows the
  whitespace immediately, the greedy `\s+` gives its last character back, which then becomes
  the location.
- An `err=<` block still open at the end of the input is never formatted or written.

## Model

| member | source | states |
|---|---|---|
| Ansi.ColorForLevel | main.go:51-60 | red exactly for level `E`, yellow exactly for `W`, blue exactly for every other level (including `I`, `D`, `F` and `""`) |
| Ansi.AllCodes | main.go:13-22 | each of the eight colour constants is a single well-formed escape sequence |
| Ansi.PaintedReset | main.go:217-218 | a colour, a text without escapes, then Reset shows on the terminal as exactly that text |
| Text.TrimSpaceSlice | main.go:72 | `strings.TrimSpace` returns a contiguous slice with only white space cut away on either side, and the result neither starts nor ends with white space |
| Klog.Take | main.go:32 | a repeated character class takes a maximal run of at least the minimum length, and the two pieces rebuild the input |
| Klog.TakeLocation | main.go:32 | the `\s+([^\]]+)]` step splits the text into white space, a location with no `]`, the bracket and the rest, which rebuild the text |
| Klog.TakeMessage | main.go:32 | the `\s+"([^"]+)"(.*)$` step splits the text into white space, a quoted message with no quote and a tail with no newline |
| Klog.HeaderSound | main.go:148-153 | every match the header matcher returns is a well-formed decomposition of the line that spells the line back |
| Klog.HeaderComplete | main.go:148-153 | every line spelled from a well-formed decomposition is matched, with the same level, date, time, message and tail, and with the same decomposition when the location does not start with white space |
| Klog.TakeLocationComplete | main.go:32 | the location step accepts every well-formed separator, location and rest, and gives the separator back as written unless the location starts with white space |
| Klog.TakeMessageComplete | main.go:32 | the message step reads back every well-formed separator, message and tail |
| Klog.AngleEnd | main.go:35 | the `<([^>]+)>` alternative ends at the first `>` |
| Klog.QuotedEnd | main.go:35 | the quoted alternative ends at the first quote not escaped by a backslash, and what it encloses is a run of escapes and non-quotes |
| Klog.BraceEnd | main.go:35 | the lazy `\{.*?\}` alternative ends at the first `}` and spans no newline |
| Klog.ValueAt | main.go:35 | a value found is one the pattern allows, and it spells back the text it was read from |
| Klog.PairAt | main.go:35 | a `key=value` match at the start of the text has a word key and an allowed value, and spells back the text |
| Klog.PairsShaped | main.go:155 | every pair `FindAllStringSubmatch` finds has a word key and a value the pattern allows |
| Klog.PairsRoundTrip | main.go:155 | a tail written as klog writes it (each pair behind a space) is scanned back into exactly its pairs, in order |
| Klog.StoredByAlternative | main.go:156-163 | an angle value is stored white-space trimmed, a quoted value without its quotes, and a brace value with its braces |
| Klog.FieldsDomain | main.go:155-164 | the keys of the field map are exactly the keys of the pairs found |
| Klog.FieldsLastWins | main.go:155-164 | for each key, the field holds the stored value of the last pair with that key |
| Klog.CollectFields | main.go:155-164 | the loop that fills the map computes the field map of the pairs |
| JsonLog.Level | main.go:80-94 | the level is `""` exactly when `level` is missing or not a string; otherwise it is the letter of the lower-cased word, and `I` for a word the switch does not name |
| JsonLog.Fields | main.go:103-143 | `level`, `ts` and `msg` never become fields; an `AWSCluster` object becomes `namespace/name`; other string members are copied verbatim; other values are stored as their marshalled text and left out when marshalling fails |
| JsonLog.FieldsOverAdd | main.go:127-143 | visiting one more member adds exactly its field. A member already visited or skipped changes nothing, so the result does not depend on the map order |
| JsonLog.ToRecord | main.go:81-102 | a JSON record takes its date from a string `ts` and its message from a string `msg`, `""` when either is missing or not a string; it has no time and no location, and its level and fields are those of the record |
| JsonLog.CopyString | main.go:104-120 | copying one named member stores its string value when it is a string and leaves the map alone otherwise; the member joins the handled ones exactly when it is a string, and the map stays the fields of the handled members |
| JsonLog.CopyCluster | main.go:121-126 | an `AWSCluster` object is stored as its `namespace/name` and joins the handled members; any other value changes nothing |
| JsonLog.CopyNamed | main.go:103-126 | the named copies handle exactly the named members that are strings, and `AWSCluster` when it is an object, and the map is the fields of those |
| JsonLog.NamedFields | main.go:103-126 | the fields of the handled named members are each string member copied unchanged and the flattened `AWSCluster`, and nothing else |
| JsonLog.CollectNamed | main.go:103-126 | after the named members the handled set is the named string members plus an `AWSCluster` object, and the map holds exactly their fields |
| JsonLog.CollectFields | main.go:103-143 | the named copies then the generic loop, in any map order, build exactly the field map `Fields` describes |
| Filter.Constraints | main.go:167-195 | at most four constraints, and none when no flag is set |
| Filter.KeepIsConjunction | main.go:167-195 | a record is kept if and only if it meets every constraint of the filters that are set |
| Filter.KeepAllByDefault | main.go:167-195 | with no flag set every record is kept |
| Filter.UnknownLevelIgnored | main.go:168-183 | a `-level` word the switch does not recognise imposes no constraint |
| Text.ToLowerCaseVariant | main.go:82 | lower-casing any capitalisation of a lower-case ASCII word gives the word back |
| Text.LowerCharCases | main.go:169 | each capital ASCII letter becomes its lower-case letter, and a lower-case letter is kept; a character that lower-cases to an ASCII letter is that letter, its capital, or one of the two special code points |
| LogRecord.LevelWordAnyCase | main.go:82-90 | every capitalisation of `info`, `warning`, `warn`, `error` or `debug` names that word's level |
| JsonLog.LevelAnyCase | main.go:81-94 | a JSON `level` member in any capitalisation of a level word gets that word's letter |
| Filter.LevelFlagAnyCase | main.go:168-183 | a `-level` flag in any capitalisation of a level word asks for that word's letter and filters exactly as the lower-case word does |
| Filter.LevelCaseInsensitive | main.go:168-180 | two `-level` words with the same lower case decide alike |
| Filter.KeepLocal | main.go:181-195 | the decision depends only on the level and the name, namespace and controller fields, an absent field counting as `""` |
| Render.Message | main.go:197-202 | the message changes exactly when the level is `E` and an `err` field exists, and then becomes `message: err` |
| Render.SlotText | main.go:220-225 | the slot is the controller alone exactly when the location is empty, and `controller@location` otherwise |
| Render.HeadlineShows | main.go:204-235 | the headline of a record without escape characters shows as level, date, time, slot, `namespace/name` and message, separated by spaces |
| Render.OrderedKeysRanked | main.go:242 | the priority keys are in rank order, and they are exactly the keys of rank below four |
| Render.PriorityShown | main.go:38-45 | no priority key is in the omission set |
| Render.PresentSpec | main.go:244-250 | the first loop lists exactly the priority keys that are fields, in priority order |
| Render.RestSpec | main.go:252-257 | the second loop lists exactly the visited fields that are neither omitted nor printed by the first loop, each once |
| Render.KvKeysSpec | main.go:237-257 | for any map order: the section lists exactly the fields not in `omitFromKV`, each once, with priority keys first in their fixed order |
| Render.OrderExample | main.go:241-257 | with fields `AWSCluster`, `cluster` and `other`, every map order gives the section `cluster`, `AWSCluster`, `other` |
| Render.KvPartShows | main.go:246-247 | one entry shows as `key: value` |
| Render.PipeOnlyWithParts | main.go:259-264 | the printed line starts with the headline, and a red pipe follows exactly when the key/value section has an entry |
| Render.Displayed | main.go:204-264 | the printed line of a record without escape characters shows as the plain headline, then a spaced bar and the `key: value` entries separated by spaced bars, when there are any |
| Render.OrderedParts | main.go:241-250 | the first loop builds the entries of the priority keys that are fields, and marks exactly those keys as printed |
| Render.BuildKvParts | main.go:237-257 | both loops together build the entries for the section's keys in some enumeration of the fields, and build none exactly when every field is in `omitFromKV` |
| Render.RemainingParts | main.go:252-257 | the second loop visits every field once, in some order, and appends the entries of the keys it lists |
| Render.KvKeysEmpty | main.go:252-260 | the section is empty exactly when every field is in `omitFromKV` |
| Formatter.ParseLine | main.go:62-265 | `parseLine` prints what `FormatLine` gives for the map order it took, and that order enumerates the record's fields. Whatever the order, it prints a line it cannot extract unchanged, prints nothing exactly when the filter rejects the record, and otherwise prints a line that starts with the record's headline |
| Formatter.NotExtractedPassesThrough | main.go:72-152 | a line from which no record can be extracted is printed unchanged |
| Formatter.UndecodableJsonPassesThrough | main.go:76-79 | a line that looks like JSON but does not decode is printed unchanged |
| Formatter.UnmatchedKlogPassesThrough | main.go:147-152 | a non-JSON line fails extraction if and only if no well-formed header spells it, and it is then printed unchanged |
| Formatter.DroppedIffFiltered | main.go:167-195 | nothing is printed exactly when a record is extracted and the filter rejects it |
| Formatter.JsonLevelMatchesFilter | main.go:168-183 | for a JSON level word both switches recognise, a `-level` flag with the same word in any case filters nothing |
| Formatter.FatalNeverMatchesLevel | main.go:168-183 | a klog fatal record (`F`) is dropped by every recognised `-level` flag |
| Formatter.JsonSlotWithoutLocation | main.go:144-145 | a JSON record has no location, so its slot is the controller alone |
| Formatter.KlogSlotWithLocation | main.go:220-224 | a klog record always has a location, so its slot is `controller@location` |
| Reassembly.FirstEndIsFirst | main.go:285-293 | the first closing line of an open block is found, and none is found only when no line closes |
| Reassembly.CollectingRun | main.go:285-293 | while collecting, the block is emitted once, joined with the trimmed lines up to the first line with `>`, and the loop then goes on from idle; with no such line nothing is emitted |
| Reassembly.IdleRun | main.go:275-298 | from idle the loop emits exactly the logical lines of its input, whatever is in the buffer |
| Reassembly.RunIsLogical | main.go:272-298 | the loop emits, in order, the lines that do not touch a block and each whole block joined |
| Reassembly.NoBlockUnchanged | main.go:296-297 | input in which no line opens a block is handed on line for line |
| Reassembly.TwoLineBlock | main.go:279-292 | an opening line followed by a closing line is handed on as one line, the second trimmed and behind a space |
| Reassembly.OpenStays | main.go:285-293 | while collecting, lines without `>` emit nothing and the loop stays collecting |
| Reassembly.UnclosedBlockDropped | main.go:275-298 | a block still open at the end of the input adds nothing to the output |
| Reassembly.RunAppend | main.go:275-298 | running the loop over two pieces of input is running it over the first and continuing with the second |
| Reassembly.Reassembler.constructor | main.go:272-273 | the loop starts idle with an empty buffer |
| Reassembly.Reassembler.Feed | main.go:276-297 | one turn of the loop updates `collecting` and `buf` and hands on a logical line by the four rules of the loop |
| Reassembly.Emit | main.go:291-297 | handing on one logical line appends what `parseLine` prints for it, keeps every earlier map order, and the new order lists the record's fields exactly once |
| Reassembly.ProcessAll | main.go:267-298 | the program prints, in order, what `parseLine` prints for each logical line the loop hands on, never more lines than it reads, and every map order used lists the printed record's fields exactly once |
| Reassembly.LogicalShorter | main.go:275-298 | no physical line yields more than one logical line |

## Left out

- Input and output: the `bufio.Scanner` over standard input, `fmt.Println` and the
  `scanner.Err()` report on standard error are not modelled. Input is a sequence of lines and
  output a sequence of strings. The scanner's 64 KiB line limit, which ends the loop with an
  error, is therefore not modelled either.
- Flags: `flag.Parse` and the global flag variables are replaced by the immutable
  `Filter.Config` passed to the filter.
- `encoding/json`: `json.Unmarshal` and `json.Marshal` are the two functions of
  `Json.Codec`, given as parameters. Their own behaviour (number syntax, escaping, duplicate
  members) is not modelled. A decoded value is a string, an object or another value.
- The Go `regexp` engine is not modelled. The two patterns are written as matchers and
  proved sound and complete against a grammar of the line (`Klog.WellFormed`, `Klog.Spell`,
  the spelled pairs). Equivalence with general RE2 matching is not proved.
- Map iteration order is a ghost enumeration of the keys, or an unconstrained choice of the
  next key, and each property holds for all of them. No concrete order is chosen.
- Text: strings are sequences of code points. Invalid UTF-8 is not modelled.
  `strings.ToLower` is modelled for ASCII letters and for the two non-ASCII code points whose
  lower case is ASCII. Other characters are kept, and since every comparison is against an
  ASCII word this does not change any decision. `fmt.Sprintf("%s...")` is concatenation.
- Pass-through over a whole stream: the statement that passed-through lines are written
  unchanged is proved per logical line (the pass-through lemmas) and chained through
  `Reassembly.ProcessAll`. It is not restated as one lemma over a whole input.
