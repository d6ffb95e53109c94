# Configuration component: variant resolution, property scopes and typed access

This project is a Dafny model of the core of the `com.sphenon.basics.configuration`
component. The component answers property lookups for a Java application. It has four layers:

- **Root configuration** (`RootConfiguration`). This is process-wide state:
  - the start-up parameters (configuration name, UI name, DB name, explicit variants and `--property=` overrides);
  - the override table `properties` with its fallback `default_properties`;
  - the *configuration variants*.
  
  The variants are an ordered, duplicate-free list of names. It comes from the explicit variants and
  from rule files (`.configuration`, `.configuration-<variant>`). Those files classify the host and
  user, include one another immediately or afterwards, and append variants when every key of a rule
  line accepts.
- **Encoded values.** A stored value `\0tags:body` is evaluated when it is read. The tags are
  `JavaScript`, `Variants` and `Cache`: the body goes to a registered JavaScript evaluator; the values
  of `key-<variant>` are appended for every variant; the result is stored back under the key.
- **Property scopes** (`ConfigurationContext`). A scope may own a table and links to the scope of a
  location context and of a call context.
  - A lookup tries the own table, then the location parent's lookup, then the call parent's, then the
    root tables.
  - A write goes to the nearest existing table, else to the root override table.
  - `Factory_ConfigurationContext` creates a scope and applies *property modifiers* through it. A
    modifier writes a value, with the current value prepended or appended if asked.
- **Typed access** (`Configuration`). A dot-separated prefix (the client id) and a key form the full
  key. A lookup can be *widened*: when nothing is found, the last segment of the prefix is dropped and
  the lookup repeated. Strings, booleans, `int`, `long` and lists are read with defaults, and values
  are written through the scope registered at the context.

The model is organised by module:

| file | module | contents |
|---|---|---|
| `support.dfy` | `Support` | `Option` (Java `null`), `Result` (exceptions) |
| `text.dfy` | `Text` | `String.split`, `indexOf`, `trim`, `StringTokenizer`, `parseInt`, `%HH` decoding |
| `variant_rules.dfy` | `VariantRules` | the rule language and variant resolution as pure functions |
| `evaluation.dfy` | `Evaluation` | the root tables and the evaluation of encoded values, threading the tables |
| `root_configuration.dfy` | `RootConfig` | class `RootConfiguration`: setters, command line, variant engine, root table access |
| `scopes.dfy` | `Scopes` | class `Context` (the registry slot), class `ConfigurationContext`, the lookup/write chain |
| `factory.dfy` | `Factories` | `PropertyModifier`, class `Factory` (`create`) |
| `configuration.dfy` | `Config` | class `Configuration`: full keys, widening, typed accessors, `setProperty` |

Each imperative Java method is a Dafny method that follows the Java statements. Its `ensures` ties its
result and new state to a pure specification function. The lemmas then prove what the component
promises about those functions.

Exceptions become `Err` results or a `failure` value, and what was changed before the exception stays
changed. Regular-expression matching (`String.matches`) is a `Matcher` parameter. The contents of the
configuration files are a `Provider` map from file-name postfix to documents: the class-path resource
first, then the configuration folders.

### Where the code differs from its documentation

The model follows the code in each of these cases:

- **Lookup order.** The documentation describes the lookup as own table, location parent, call parent,
  root. In the code the location parent's `getPropertyEntry` ends at the root tables itself. So when a
  location parent exists and the root holds the key, the call parent is never consulted
  (`Scopes.LocationParentEndsAtRoot`).
- **Writes.** With a location parent, a write never reaches the call parent.
- **Missing keys.** The documentation says a scope delegates upward when it has no own table. The code
  also delegates when the own table exists but lacks the key (`Scopes.MissingKeyConsultsParents`).
- **Literal escape.** The documentation says `\0\0literal` yields `literal`. The code returns
  `substring(1)`, which keeps one `\0` (`Evaluation.LiteralEscape`).

## Model

| member | source | states |
|---|---|---|
| Text.SplitAll | src/main/java/com/sphenon/basics/configuration/RootConfiguration.java:584 | `split(sep, -1)`: at least one field, no field contains the separator, and joining the fields with it gives the input back |
| Text.JavaSplit | src/main/java/com/sphenon/basics/configuration/RootConfiguration.java:552 | `split(sep)`: no field contains the separator; an input without the separator is its own only field |
| Text.NonEmptyFields | src/main/java/com/sphenon/basics/configuration/RootConfiguration.java:628-629 | the entries an include line acts on are the non-empty `,`-fields, none holding a `,` |
| Text.SplitJoin | src/main/java/com/sphenon/basics/configuration/RootConfiguration.java:1219-1230 | splitting a `:`-joined list of `:`-free strings gives the list back |
| Text.JavaSplitTwoFields | src/main/java/com/sphenon/basics/configuration/RootConfiguration.java:584-585 | a line `a=b` with one `=` and a non-empty right side splits into exactly the two fields |
| Text.IndexOf | src/main/java/com/sphenon/basics/configuration/Configuration.java:596 | `indexOf`: -1 iff the character is absent, else the first position holding it |
| Text.LastIndexOf | src/main/java/com/sphenon/basics/configuration/Configuration.java:531 | `lastIndexOf`: -1 iff the character is absent, else the last position holding it |
| Text.SplitOnce | src/main/java/com/sphenon/basics/configuration/RootConfiguration.java:95 | `split(":", 2)`: none iff there is no separator, else the text before the first one and the rest, which re-join to the input |
| Text.Trim | src/main/java/com/sphenon/basics/configuration/Configuration.java:450 | `trim`: no longer than the input, no control or space character at either end, every character above U+0020 still present |
| Text.TrimIsStrippedSlice | src/main/java/com/sphenon/basics/configuration/Configuration.java:450 | `trim` returns one contiguous piece of the input; everything cut off before or after it is at most U+0020 |
| Text.TokensWellFormed | src/main/java/com/sphenon/basics/configuration/Configuration.java:446-451 | every `StringTokenizer(s, ", ")` token is non-empty and holds neither `,` nor space |
| Text.TokensOfJoin | src/main/java/com/sphenon/basics/configuration/Configuration.java:446-451 | tokenizing a comma-joined list of non-empty delimiter-free items gives the items back |
| Text.ParseInteger | src/main/java/com/sphenon/basics/configuration/Configuration.java:358 | `parseInt`/`parseLong`: accepted iff the text is an optional sign followed by one or more ASCII digits whose value lies in the type's range, and then that value is the result; anything else (the empty string, a lone sign, other characters, out of range) is refused |
| Text.ParsePrinted | src/main/java/com/sphenon/basics/configuration/Configuration.java:428-429 | parsing `Integer.toString(n)` gives `n` back for every in-range `n` |
| Text.HexDigitChar | src/main/java/com/sphenon/basics/configuration/RootConfiguration.java:119-121 | each digit value below 16 has a hex digit that `decode`'s arithmetic maps back to it |
| Text.DecodedWithoutEscapes | src/main/java/com/sphenon/basics/configuration/RootConfiguration.java:106-128 | text without `%` passes through `decode` unchanged |
| Text.DecodedPercentEncoded | src/main/java/com/sphenon/basics/configuration/RootConfiguration.java:106-128 | `decode` inverts `%HH` encoding of any text below U+0100 |
| VariantRules.RuleAppliesIffAllKeysHold | src/main/java/com/sphenon/basics/configuration/RootConfiguration.java:648-729 | a rule line's keys pass iff every key is empty or well formed and accepting (both directions) |
| VariantRules.UnknownAttributesNeverReject | src/main/java/com/sphenon/basics/configuration/RootConfiguration.java:653-726 | well-formed keys with attributes other than the eleven known ones never reject a line |
| VariantRules.EmptyLeftSideApplies | src/main/java/com/sphenon/basics/configuration/RootConfiguration.java:648-654 | a line `=v1:v2` is a rule with one empty key, which passes |
| VariantRules.Added | src/main/java/com/sphenon/basics/configuration/RootConfiguration.java:550-559 | `addVariants` keeps the old list as prefix, appends only non-empty tokens not yet seen, keeps list and duplicate set in step, and afterwards holds every non-empty token |
| VariantRules.Enqueued | src/main/java/com/sphenon/basics/configuration/RootConfiguration.java:636-647 | `@include.afterwards` appends, without repetition, exactly the targets not seen before, and marks all targets seen |
| VariantRules.AppendClass | src/main/java/com/sphenon/basics/configuration/RootConfiguration.java:589-626 | the class name is appended once per entry equal to the host (user); the list is created on first use and unchanged when nothing matches |
| VariantRules.ResolveGrows | src/main/java/com/sphenon/basics/configuration/RootConfiguration.java:794-802 | `tryConfiguration` only extends the variant list and queue, queues only unseen targets of provided files, and keeps list and duplicate set in step |
| VariantRules.ParseDocumentsGrows | src/main/java/com/sphenon/basics/configuration/RootConfiguration.java:797-801 | the same for the files of one suffix taken in order |
| VariantRules.ParseLinesGrows | src/main/java/com/sphenon/basics/configuration/RootConfiguration.java:570-736 | the same for the lines of one file |
| VariantRules.ApplyGrows | src/main/java/com/sphenon/basics/configuration/RootConfiguration.java:582-729 | the same for one line |
| VariantRules.IncludeEachGrows | src/main/java/com/sphenon/basics/configuration/RootConfiguration.java:627-635 | the same for `@include.immediately` |
| VariantRules.ParseDocumentsStops | src/main/java/com/sphenon/basics/configuration/RootConfiguration.java:794-802 | after an error in one file the later files are not parsed |
| VariantRules.ParseLinesStops | src/main/java/com/sphenon/basics/configuration/RootConfiguration.java:577-735 | after a syntax error the later lines are not parsed |
| VariantRules.IncludeEachStops | src/main/java/com/sphenon/basics/configuration/RootConfiguration.java:628-633 | after a failed include the later targets are not tried |
| VariantRules.RejectedRuleKeepsState | src/main/java/com/sphenon/basics/configuration/RootConfiguration.java:666-729 | a rule line with a key that does not hold leaves the whole state unchanged |
| VariantRules.Drain | src/main/java/com/sphenon/basics/configuration/RootConfiguration.java:869-872 | the `poll` loop terminates, keeps the variant list as prefix and in step, and without error empties the queue |
| VariantRules.PolledOnce | src/main/java/com/sphenon/basics/configuration/RootConfiguration.java:869-872 | the suffixes the `poll` loop takes (`Polled`) are never repeated and are all marked seen; without error they start with the queue and cover every suffix seen at the end |
| VariantRules.ResolveAllResolvesEachSuffixOnce | src/main/java/com/sphenon/basics/configuration/RootConfiguration.java:857-872 | over a whole resolution the empty suffix is taken first, no suffix is taken twice, and without error the suffixes taken are exactly the seen set |
| VariantRules.DrainTurn | src/main/java/com/sphenon/basics/configuration/RootConfiguration.java:870-872 | one turn resolves the head of the queue, then drains the rest unless it failed |
| VariantRules.ExplicitVariantsFirst | src/main/java/com/sphenon/basics/configuration/RootConfiguration.java:841-879 | the resolved list starts with the explicit variants, has no duplicates and holds every non-empty explicit variant |
| Evaluation.OverridesShadowDefaults | src/main/java/com/sphenon/basics/configuration/RootConfiguration.java:83 | an override shadows the default; a missing override falls back to the default; a key is found iff it is in either table |
| Evaluation.EvaluateJavaScript | src/main/java/com/sphenon/basics/configuration/Configuration.java:556-564 | without a registered evaluator the call fails with the impossible-state error, and only then |
| Evaluation.ParseTagsMeaning | src/main/java/com/sphenon/basics/configuration/Configuration.java:598-606 | the tags are accepted iff each is `JavaScript`, `Variants` or `Cache`, and each flag is set iff its tag occurs |
| Evaluation.RootGet | src/main/java/com/sphenon/basics/configuration/RootConfiguration.java:220-239 | a root lookup (which may cache) never adds or removes table keys |
| Evaluation.Evaluate | src/main/java/com/sphenon/basics/configuration/Configuration.java:589-628 | evaluation keeps the table keys, and whatever it caches is exactly the value it returns |
| Evaluation.ApplyTags | src/main/java/com/sphenon/basics/configuration/Configuration.java:607-625 | the same for the tag steps |
| Evaluation.WithVariantValues | src/main/java/com/sphenon/basics/configuration/Configuration.java:612-618 | the `Variants` step never yields null |
| Evaluation.AppendVariants | src/main/java/com/sphenon/basics/configuration/RootConfiguration.java:241-251 | appending variant values keeps the table keys |
| Evaluation.AppendVariantsStep | src/main/java/com/sphenon/basics/configuration/RootConfiguration.java:243-249 | each variant's lookup sees the tables the previous lookups left and appends its value, or nothing for null |
| Evaluation.AppendVariantsStops | src/main/java/com/sphenon/basics/configuration/RootConfiguration.java:241-251 | a failed variant lookup ends the loop with that failure |
| Evaluation.OverrideWrite | src/main/java/com/sphenon/basics/configuration/RootConfiguration.java:270-272 | after an override write the key reads as the value and every other key as before |
| Evaluation.DefaultWrite | src/main/java/com/sphenon/basics/configuration/RootConfiguration.java:1115-1117 | a new default is visible only where no override shadows it |
| Evaluation.PlainValueUnchanged | src/main/java/com/sphenon/basics/configuration/RootConfiguration.java:228-236 | a value that is not encoded is returned as stored and nothing changes |
| Evaluation.LiteralEscape | src/main/java/com/sphenon/basics/configuration/Configuration.java:590 | `\0\0rest` yields `\0rest` and caches nothing |
| Evaluation.NoTagSectionUnchanged | src/main/java/com/sphenon/basics/configuration/Configuration.java:596-627 | an encoded value without `:` is returned unchanged |
| Evaluation.TaggedValue | src/main/java/com/sphenon/basics/configuration/Configuration.java:596-607 | `\0tags:body` is split at the first `:` into the tag list and the body |
| Evaluation.JavaScriptTagValue | src/main/java/com/sphenon/basics/configuration/Configuration.java:596-611 | a value tagged `JavaScript` alone reads as the script's result on the body, and nothing is cached |
| Evaluation.UnknownTagRaises | src/main/java/com/sphenon/basics/configuration/Configuration.java:603 | an unknown tag, the empty one included, raises the precondition violation |
| Evaluation.AppendPlainVariants | src/main/java/com/sphenon/basics/configuration/RootConfiguration.java:241-251 | with no encoded variant entries, `Variants` appends the stored values of `key-variant` in variant order, missing ones adding nothing |
| Evaluation.CachedResultIsStable | src/main/java/com/sphenon/basics/configuration/Configuration.java:619-624 | after `Cache` the entry holds the result, and a second lookup of a non-encoded result returns it without evaluating again |
| Evaluation.CacheOfNullRaises | src/main/java/com/sphenon/basics/configuration/Configuration.java:620-622 | `Cache` of a null script result is an error |
| RootConfig.Decode | src/main/java/com/sphenon/basics/configuration/RootConfiguration.java:106-128 | the method computes `Decoded`, whose inverse property is `Text.DecodedPercentEncoded` |
| RootConfig.Join | src/main/java/com/sphenon/basics/configuration/RootConfiguration.java:1219-1230 | the strings separated by `:`, the empty string for null |
| RootConfig.JoinedVariantsSplit | src/main/java/com/sphenon/basics/configuration/RootConfiguration.java:1219-1230 | a joined list of `:`-free names splits back into the list |
| RootConfig.AddTo | src/main/java/com/sphenon/basics/configuration/RootConfiguration.java:326-353 | `current` when `additional` is null or empty, `additional` when `current` is, otherwise `current` extended by `AppendEach`: the value `AddedTo` describes |
| RootConfig.AppendEach | src/main/java/com/sphenon/basics/configuration/RootConfiguration.java:337-350 | the entry loop appends after a `:` exactly the non-empty entries not among the current ones, as `AppendMissing` states (meaning in `AddToMeaning`) |
| RootConfig.Contains | src/main/java/com/sphenon/basics/configuration/RootConfiguration.java:339-345 | the inner loop finds the entry iff it is among the current entries |
| RootConfig.AddToMeaning | src/main/java/com/sphenon/basics/configuration/RootConfiguration.java:326-353 | `addTo` keeps `current` as a prefix, its fields are the old ones followed by the missing new entries, and afterwards every non-empty new entry is a field |
| RootConfig.AddToRepeatsNewEntries | src/main/java/com/sphenon/basics/configuration/RootConfiguration.java:335-351 | an entry given twice and not in `current` is appended twice |
| RootConfig.SwitchesRecordProperties | src/main/java/com/sphenon/basics/configuration/RootConfiguration.java:177-178 | each `--property=` switch appends its value to the recorded overrides, in order |
| RootConfig.PropertySwitchStep | src/main/java/com/sphenon/basics/configuration/RootConfiguration.java:94-97 | one more switch is split at its first `:` and written as an override, or is the failure |
| RootConfig.PropertySwitchesStop | src/main/java/com/sphenon/basics/configuration/RootConfiguration.java:93-98 | a switch without `:` ends the loop |
| RootConfig.PropertySwitchesMeaning | src/main/java/com/sphenon/basics/configuration/RootConfiguration.java:93-98 | the switches fail iff one lacks `:` (the failure names one); defaults are untouched; otherwise the last switch's key reads as its value |
| RootConfig.LastSwitchValue | src/main/java/com/sphenon/basics/configuration/RootConfiguration.java:93-97 | the value of the last switch naming a key: a value given comes from a switch `key:value`, and there is none iff no switch names the key |
| RootConfig.PropertySwitchesTable | src/main/java/com/sphenon/basics/configuration/RootConfiguration.java:93-98 | the whole table: without a failure every key reads as the value of the last switch naming it, or as before when none does; a failure is the first switch without `:`, and the table is the one the switches before it give |
| RootConfig.Accumulator.constructor | src/main/java/com/sphenon/basics/configuration/RootConfiguration.java:844-845 | the list, duplicate set, queue and seen set start empty |
| RootConfig.RootConfiguration.constructor | src/main/java/com/sphenon/basics/configuration/RootConfiguration.java:135-145 | before initialisation every parameter, class list and variant list is null and both tables are empty |
| RootConfig.RootConfiguration.CheckInitialisation | src/main/java/com/sphenon/basics/configuration/RootConfiguration.java:380-384 | refused iff modified after initialisation |
| RootConfig.RootConfiguration.CanSet | src/main/java/com/sphenon/basics/configuration/RootConfiguration.java:362-378 | refused iff initialised and the values differ, null and "" counting as equal |
| RootConfig.RootConfiguration.SetConfigurationName | src/main/java/com/sphenon/basics/configuration/RootConfiguration.java:422-425 | refused as `CanSet` says, leaving the name; otherwise the name is set |
| RootConfig.RootConfiguration.SetConfigurationUIName | src/main/java/com/sphenon/basics/configuration/RootConfiguration.java:438-442 | never refused; the names are merged with `addTo` |
| RootConfig.RootConfiguration.SetConfigurationDBName | src/main/java/com/sphenon/basics/configuration/RootConfiguration.java:455-459 | never refused; the names are merged with `addTo` |
| RootConfig.RootConfiguration.SetExplicitConfigurationVariant | src/main/java/com/sphenon/basics/configuration/RootConfiguration.java:473-476 | refused as `CanSet` says, else set |
| RootConfig.RootConfiguration.AppendExplicitConfigurationVariant | src/main/java/com/sphenon/basics/configuration/RootConfiguration.java:483-487 | never refused; merged with `addTo` |
| RootConfig.RootConfiguration.SetPropertyOverride | src/main/java/com/sphenon/basics/configuration/RootConfiguration.java:501-506 | the override is appended to the (created if null) list |
| RootConfig.RootConfiguration.ApplySwitch | src/main/java/com/sphenon/basics/configuration/RootConfiguration.java:166-187 | before initialisation one argument changes the parameters as `AfterSwitch` says and is never refused; only the name and variant switches can be refused |
| RootConfig.RootConfiguration.CheckCommandLineArgs | src/main/java/com/sphenon/basics/configuration/RootConfiguration.java:157-193 | the non-switch arguments are returned in order; before initialisation the switches set the parameters as `AfterSwitches` says |
| RootConfig.RootConfiguration.AddVariants | src/main/java/com/sphenon/basics/configuration/RootConfiguration.java:550-559 | the state becomes `WithVariants`, whose meaning is `VariantRules.Added` |
| RootConfig.RootConfiguration.Matches | src/main/java/com/sphenon/basics/configuration/RootConfiguration.java:508-517 | true iff some string of a non-null list matches |
| RootConfig.RootConfiguration.ListRuleHolds | src/main/java/com/sphenon/basics/configuration/RootConfiguration.java:690-724 | the `ui`/`db`/`variants` scan: some name matches `inc`, and the scan stops at the first `exc` match |
| RootConfig.RootConfiguration.KeyHolds | src/main/java/com/sphenon/basics/configuration/RootConfiguration.java:664-724 | one key's verdict equals `KeyAccepts` on the current facts and classes |
| RootConfig.RootConfiguration.EvalRule | src/main/java/com/sphenon/basics/configuration/RootConfiguration.java:653-726 | the key loop equals `EvalKeys`, whose meaning is `RuleAppliesIffAllKeysHold` |
| RootConfig.RootConfiguration.RecordClass | src/main/java/com/sphenon/basics/configuration/RootConfiguration.java:595-605 | the entry loop computes `AppendClass` |
| RootConfig.RootConfiguration.EnqueueAfterwards | src/main/java/com/sphenon/basics/configuration/RootConfiguration.java:636-647 | the queue and seen set become `Enqueued` |
| RootConfig.RootConfiguration.IncludeImmediately | src/main/java/com/sphenon/basics/configuration/RootConfiguration.java:627-635 | state and failure equal `IncludeEach` |
| RootConfig.RootConfiguration.ProcessLine | src/main/java/com/sphenon/basics/configuration/RootConfiguration.java:582-583 | one line: blank and comment lines change nothing; otherwise state and failure equal `Apply` of its classification |
| RootConfig.RootConfiguration.ProcessContentLine | src/main/java/com/sphenon/basics/configuration/RootConfiguration.java:584-588 | a line that is neither blank nor a comment fails unless it has exactly one `=`; otherwise as `Apply` says |
| RootConfig.RootConfiguration.ProcessPair | src/main/java/com/sphenon/basics/configuration/RootConfiguration.java:589-729 | a `key=value` line: state and failure equal `Apply` of the key's classification, class keys first, then include keys, then rules |
| RootConfig.RootConfiguration.ProcessClassLine | src/main/java/com/sphenon/basics/configuration/RootConfiguration.java:589-626 | an empty class name is an error naming the line; otherwise the class is recorded iff an entry equals the host (user) name |
| RootConfig.RootConfiguration.ProcessIncludeLine | src/main/java/com/sphenon/basics/configuration/RootConfiguration.java:627-647 | `@include.immediately` resolves the non-empty targets in turn as `IncludeEach` says; `@include.afterwards` queues the unseen ones as `Enqueued` says |
| RootConfig.RootConfiguration.ApplyRule | src/main/java/com/sphenon/basics/configuration/RootConfiguration.java:648-729 | a rule line adds its variants exactly as `Apply` says |
| RootConfig.RootConfiguration.ParseVariantFile | src/main/java/com/sphenon/basics/configuration/RootConfiguration.java:570-736 | state and failure equal `ParseLines` over all lines |
| RootConfig.RootConfiguration.ParseLineAt | src/main/java/com/sphenon/basics/configuration/RootConfiguration.java:570-736 | one turn of the line loop extends `ParseLines` by the next line's directive |
| RootConfig.RootConfiguration.TryConfiguration | src/main/java/com/sphenon/basics/configuration/RootConfiguration.java:794-802 | state and failure equal `Resolve` |
| RootConfig.RootConfiguration.PrepareBasicParameters | src/main/java/com/sphenon/basics/configuration/RootConfiguration.java:532-546 | null parameters become "", others are kept |
| RootConfig.RootConfiguration.DrainQueue | src/main/java/com/sphenon/basics/configuration/RootConfiguration.java:869-872 | state and failure equal `Drain`; the suffixes the loop took are `Polled`, so each is taken at most once (`PolledOnce`) |
| RootConfig.RootConfiguration.GetVariants | src/main/java/com/sphenon/basics/configuration/RootConfiguration.java:841-879 | first call: the result is `ResolveAll`'s list (or its error, leaving the list null), classes recorded; later calls return the recorded list and change nothing; the suffixes the first call took are those of `ResolveAllResolvesEachSuffixOnce` |
| RootConfig.RootConfiguration.SetEvaluator | src/main/java/com/sphenon/basics/configuration/Configuration.java:574-579 | the evaluator is registered |
| RootConfig.RootConfiguration.GetPropertyEntry | src/main/java/com/sphenon/basics/configuration/RootConfiguration.java:220-239 | result and tables equal `RootGet` |
| RootConfig.RootConfiguration.EvaluateAndCacheProperty | src/main/java/com/sphenon/basics/configuration/Configuration.java:589-628 | result, cached value and tables equal `Evaluate` |
| RootConfig.RootConfiguration.ApplyPreprocessing | src/main/java/com/sphenon/basics/configuration/Configuration.java:607-625 | equal to `ApplyTags` |
| RootConfig.RootConfiguration.ReadTags | src/main/java/com/sphenon/basics/configuration/Configuration.java:598-606 | the tag loop computes `ParseTags`, whose meaning is `Evaluation.ParseTagsMeaning` |
| RootConfig.RootConfiguration.AppendPropertyEntryVariants | src/main/java/com/sphenon/basics/configuration/RootConfiguration.java:241-251 | equal to `AppendVariants` over the recorded variants |
| RootConfig.RootConfiguration.AppendVariantValue | src/main/java/com/sphenon/basics/configuration/RootConfiguration.java:244-248 | one loop turn extends `AppendVariants` by one variant |
| RootConfig.RootConfiguration.SetPropertyEntry | src/main/java/com/sphenon/basics/configuration/RootConfiguration.java:270-272 | the override table maps the name to the value, all else kept |
| RootConfig.RootConfiguration.SetDefaultProperty | src/main/java/com/sphenon/basics/configuration/RootConfiguration.java:1115-1117 | the default table maps the name to the value, all else kept |
| RootConfig.RootConfiguration.Initialise | src/main/java/com/sphenon/basics/configuration/RootConfiguration.java:76-101 | only the first call acts: it marks the configuration initialised, starts an empty override table in front of the defaults and applies the `--property=` switches as `WithPropertySwitches`; later calls change nothing |
| RootConfig.RootConfiguration.ApplyPropertySwitches | src/main/java/com/sphenon/basics/configuration/RootConfiguration.java:93-98 | tables and failure equal `WithPropertySwitches`, whose meaning is `PropertySwitchesMeaning` and `PropertySwitchesTable` |
| Scopes.OwnGet | src/main/java/com/sphenon/basics/configuration/ConfigurationContext.java:80-92 | a scope without a table or without the key yields null and changes nothing; otherwise only the own table may change, and only by storing the returned value under the key; scopes and table keys are kept |
| Scopes.ChainGet | src/main/java/com/sphenon/basics/configuration/ConfigurationContext.java:79-113 | the lookup keeps the set of scopes and table keys |
| Scopes.Inherited | src/main/java/com/sphenon/basics/configuration/ConfigurationContext.java:93-111 | the same after the own table |
| Scopes.CallThenRoot | src/main/java/com/sphenon/basics/configuration/ConfigurationContext.java:101-111 | the same after the location parent |
| Scopes.ParentGet | src/main/java/com/sphenon/basics/configuration/ConfigurationContext.java:95-99 | the same for a parent link, null giving nothing |
| Scopes.ChainSet | src/main/java/com/sphenon/basics/configuration/ConfigurationContext.java:115-132 | a write keeps the set of scopes |
| Scopes.WriteTarget | src/main/java/com/sphenon/basics/configuration/ConfigurationContext.java:115-132 | a write changes exactly one table: the nearest existing own table along the write path, else the root override table |
| Scopes.SetThenGet | src/main/java/com/sphenon/basics/configuration/ConfigurationContext.java:79-132 | a non-encoded value written through a scope is what a lookup through it finds |
| Scopes.SetThenGetThroughParent | src/main/java/com/sphenon/basics/configuration/ConfigurationContext.java:120-130 | the same when the write is handed to a parent |
| Scopes.ParentHitIsFound | src/main/java/com/sphenon/basics/configuration/ConfigurationContext.java:93-108 | a scope without a table finds what its first parent finds |
| Scopes.RootFallback | src/main/java/com/sphenon/basics/configuration/ConfigurationContext.java:109-111 | when no scope has the key, the lookup yields the root value and changes nothing |
| Scopes.ParentFallback | src/main/java/com/sphenon/basics/configuration/ConfigurationContext.java:93-108 | the same through a parent link; a null link yields nothing |
| Scopes.MissingKeyConsultsParents | src/main/java/com/sphenon/basics/configuration/ConfigurationContext.java:82-100 | a table that lacks the key makes the lookup behave as if the scope had no table |
| Scopes.InheritedIgnoresOwnTable | src/main/java/com/sphenon/basics/configuration/ConfigurationContext.java:93-111 | the parents' lookups neither read nor write the child's own table |
| Scopes.CallThenRootIgnoresOwnTable | src/main/java/com/sphenon/basics/configuration/ConfigurationContext.java:101-111 | the same for the call parent and root |
| Scopes.ParentIgnoresOwnTable | src/main/java/com/sphenon/basics/configuration/ConfigurationContext.java:93-108 | the same for one parent link |
| Scopes.OwnValueShadows | src/main/java/com/sphenon/basics/configuration/ConfigurationContext.java:80-92 | a non-encoded own value is returned and nothing changes |
| Scopes.GetPropertiesMissesParentTable | src/main/java/com/sphenon/basics/configuration/ConfigurationContext.java:61-77 | with no own table and a location parent table, the reachable table differs from what `getProperties` returns |
| Scopes.NearestTableMeaning | src/main/java/com/sphenon/basics/configuration/ConfigurationContext.java:61-77 | the intended `getProperties` is null iff no reachable scope has a table, else it is one of their tables |
| Scopes.LookupCreatesNoTable | src/main/java/com/sphenon/basics/configuration/ConfigurationContext.java:79-113 | a lookup never gives a scope without a table a table |
| Scopes.InheritedCreatesNoTable | src/main/java/com/sphenon/basics/configuration/ConfigurationContext.java:93-111 | the same after the own table |
| Scopes.ParentCreatesNoTable | src/main/java/com/sphenon/basics/configuration/ConfigurationContext.java:93-108 | the same through a parent link |
| Scopes.WriteCreatesNoTable | src/main/java/com/sphenon/basics/configuration/ConfigurationContext.java:115-132 | a write never gives a scope a table |
| Scopes.UnevaluatedLookup | src/main/java/com/sphenon/basics/configuration/ConfigurationContext.java:79-113 | without an evaluator a lookup changes nothing and finds `Visible`: own value, else location parent's, else call parent's, else root |
| Scopes.UnevaluatedInherited | src/main/java/com/sphenon/basics/configuration/ConfigurationContext.java:93-111 | the same after the own table |
| Scopes.UnevaluatedParentLookup | src/main/java/com/sphenon/basics/configuration/ConfigurationContext.java:93-108 | the same for a parent link |
| Scopes.VisibleMeaning | src/main/java/com/sphenon/basics/configuration/ConfigurationContext.java:79-113 | nothing is found iff neither the root nor any reachable table holds the key |
| Scopes.LocationParentEndsAtRoot | src/main/java/com/sphenon/basics/configuration/ConfigurationContext.java:93-108 | with a location parent and a root value, the call parent is never consulted |
| Scopes.ConfigurationContext.constructor | src/main/java/com/sphenon/basics/configuration/ConfigurationContext.java:46-49 | a new scope has no table and the given parents |
| Scopes.ConfigurationContext.Create | src/main/java/com/sphenon/basics/configuration/ConfigurationContext.java:40-44 | a fresh scope without table, registered at the context, replacing any earlier one |
| Scopes.ConfigurationContext.Get | src/main/java/com/sphenon/basics/configuration/ConfigurationContext.java:35-38 | the registered scope, possibly null |
| Scopes.ConfigurationContext.GetOrCreate | src/main/java/com/sphenon/basics/configuration/ConfigurationContext.java:26-33 | the registered scope if any, else a fresh registered one |
| Scopes.ConfigurationContext.OwnPropertyEntry | src/main/java/com/sphenon/basics/configuration/ConfigurationContext.java:80-92 | equal to `OwnGet` |
| Scopes.ConfigurationContext.GetPropertyEntry | src/main/java/com/sphenon/basics/configuration/ConfigurationContext.java:79-113 | result and all tables equal `ChainGet` |
| Scopes.ConfigurationContext.CallThenRootPropertyEntry | src/main/java/com/sphenon/basics/configuration/ConfigurationContext.java:101-111 | equal to `CallThenRoot` |
| Scopes.ConfigurationContext.ParentPropertyEntry | src/main/java/com/sphenon/basics/configuration/ConfigurationContext.java:95-99 | equal to `ParentGet` |
| Scopes.ConfigurationContext.SetPropertyEntry | src/main/java/com/sphenon/basics/configuration/ConfigurationContext.java:115-132 | all tables equal `ChainSet` |
| Scopes.ConfigurationContext.GetProperties | src/main/java/com/sphenon/basics/configuration/ConfigurationContext.java:61-77 | as written: always the own field |
| Scopes.ConfigurationContext.NearestProperties | src/main/java/com/sphenon/basics/configuration/ConfigurationContext.java:61-77 | as intended: the nearest table the parents find |
| Scopes.ConfigurationContext.InstantiateLocalProperties | src/main/java/com/sphenon/basics/configuration/ConfigurationContext.java:53-55 | the own table becomes empty |
| Scopes.ConfigurationContext.SetProperties | src/main/java/com/sphenon/basics/configuration/ConfigurationContext.java:57-59 | the own table becomes the given one |
| Factories.ApplyModifier | src/main/java/com/sphenon/basics/configuration/factories/Factory_ConfigurationContext.java:32-48 | one modifier keeps the set of scopes |
| Factories.Modifiers | src/main/java/com/sphenon/basics/configuration/factories/Factory_ConfigurationContext.java:30-50 | the modifier loop keeps the set of scopes |
| Factories.ModifiersStep | src/main/java/com/sphenon/basics/configuration/factories/Factory_ConfigurationContext.java:31-49 | one more modifier runs on the state the previous ones left, unless they failed |
| Factories.ModifiersStop | src/main/java/com/sphenon/basics/configuration/factories/Factory_ConfigurationContext.java:30-50 | after a failure the remaining modifiers change nothing |
| Factories.ModifierReadsBack | src/main/java/com/sphenon/basics/configuration/factories/Factory_ConfigurationContext.java:32-48 | without an evaluator a modifier succeeds and a lookup then finds (current+sep if prepend) + value + (sep+current if append), null rendered as "null" |
| Factories.LaterModifierSeesEarlier | src/main/java/com/sphenon/basics/configuration/factories/Factory_ConfigurationContext.java:31-49 | a later modifier of the same name finds what the earlier one wrote |
| Factories.ReplaceIgnored | src/main/java/com/sphenon/basics/configuration/factories/PropertyModifier.java:58-67 | the `replace` flag has no effect |
| Factories.ModifiersCreateNoTable | src/main/java/com/sphenon/basics/configuration/factories/Factory_ConfigurationContext.java:29-50 | the modifiers never give a scope a table, so they land in enclosing tables or the root |
| Factories.ModifierCreatesNoTable | src/main/java/com/sphenon/basics/configuration/factories/Factory_ConfigurationContext.java:32-48 | the same for one modifier |
| Factories.UnevaluatedModifiersSucceed | src/main/java/com/sphenon/basics/configuration/factories/Factory_ConfigurationContext.java:30-50 | without an evaluator the modifier loop never fails |
| Factories.ApplyPropertyModifier | src/main/java/com/sphenon/basics/configuration/factories/Factory_ConfigurationContext.java:32-48 | tables and failure equal `ApplyModifier` |
| Factories.ApplyPropertyModifiers | src/main/java/com/sphenon/basics/configuration/factories/Factory_ConfigurationContext.java:30-50 | tables and failure equal `Modifiers` |
| Factories.Factory.constructor | src/main/java/com/sphenon/basics/configuration/factories/Factory_ConfigurationContext.java:54-64 | no context, no modifiers |
| Factories.Factory.SetContext | src/main/java/com/sphenon/basics/configuration/factories/Factory_ConfigurationContext.java:60-62 | the context is set |
| Factories.Factory.SetPropertyModifiers | src/main/java/com/sphenon/basics/configuration/factories/Factory_ConfigurationContext.java:74-76 | the modifiers are set |
| Factories.Factory.Create | src/main/java/com/sphenon/basics/configuration/factories/Factory_ConfigurationContext.java:28-52 | a fresh scope registered at the context, then tables and failure equal `Modifiers` over the modifiers (none when null) |
| Config.FullKey | src/main/java/com/sphenon/basics/configuration/Configuration.java:519 | null iff prefix and key are null; a non-null key gives a full key at least as long |
| Config.Shortened | src/main/java/com/sphenon/basics/configuration/Configuration.java:531-536 | the prefix without its last segment, null for a single segment, never longer |
| Config.Prefixes | src/main/java/com/sphenon/basics/configuration/Configuration.java:530-537 | the widening probes start with the given prefix |
| Config.PrefixesMeaning | src/main/java/com/sphenon/basics/configuration/Configuration.java:530-537 | each probe drops the previous one's last segment; the last probe is null or empty |
| Config.ProbeOrder | src/main/java/com/sphenon/basics/configuration/Configuration.java:505-511 | prefix `a.b.c` and key `D` probe `a.b.c.D`, `a.b.D`, `a.D`, `D` in order |
| Config.Find | src/main/java/com/sphenon/basics/configuration/Configuration.java:520-521 | the registered scope's lookup, else the root's, keeps the set of scopes |
| Config.PropertyValue | src/main/java/com/sphenon/basics/configuration/Configuration.java:518-539 | the main accessor keeps the set of scopes |
| Config.Write | src/main/java/com/sphenon/basics/configuration/Configuration.java:468-473 | a write keeps the set of scopes |
| Config.UnevaluatedFind | src/main/java/com/sphenon/basics/configuration/Configuration.java:520-521 | without an evaluator a lookup changes nothing |
| Config.WidenedLookup | src/main/java/com/sphenon/basics/configuration/Configuration.java:518-539 | without widening only the full key is looked up; with it, the first value along `Prefixes` is found |
| Config.PropertyWrittenIsRead | src/main/java/com/sphenon/basics/configuration/Configuration.java:466-474 | a non-encoded value written under prefix and key is what a lookup of them finds |
| Config.StringOrDefault | src/main/java/com/sphenon/basics/configuration/Configuration.java:204-215 | a found value is returned; nothing found gives the default, or `EntryNotFound` for `mustGet`; errors pass through |
| Config.ParseBool | src/main/java/com/sphenon/basics/configuration/Configuration.java:324-331 | true iff `true`/`TRUE`, false iff `false`/`FALSE` |
| Config.BoolOrDefault | src/main/java/com/sphenon/basics/configuration/Configuration.java:314-332 | an error iff the lookup failed or nothing was found under `mustGet`; nothing found otherwise gives the default; a found `true`/`TRUE` or `false`/`FALSE` gives that boolean and any other text the default |
| Config.BoolRoundTrip | src/main/java/com/sphenon/basics/configuration/Configuration.java:348-350 | what `set(key, boolean)` stores reads back as that boolean |
| Config.ConvertToInt | src/main/java/com/sphenon/basics/configuration/Configuration.java:356-363 | the value of a well-formed decimal int text in the int range; the default for any other entry |
| Config.ConvertToLong | src/main/java/com/sphenon/basics/configuration/Configuration.java:413-418 | the value of a well-formed decimal text in the long range; the default for any other entry |
| Config.IntRoundTrip | src/main/java/com/sphenon/basics/configuration/Configuration.java:428-430 | what `set(key, int)` stores reads back as that int |
| Config.LongRoundTrip | src/main/java/com/sphenon/basics/configuration/Configuration.java:413-414 | a printed long parses back to itself |
| Config.ListValue | src/main/java/com/sphenon/basics/configuration/Configuration.java:446-452 | one item per token |
| Config.ListRoundTrip | src/main/java/com/sphenon/basics/configuration/Configuration.java:442-453 | a comma-joined list of non-empty items, each made of characters above U+0020 other than `,`, reads back item by item |
| Config.Configuration.constructor | src/main/java/com/sphenon/basics/configuration/Configuration.java:83-115 | the client id is recorded |
| Config.Configuration.GetProperty | src/main/java/com/sphenon/basics/configuration/Configuration.java:518-539 | result and tables equal `PropertyValue` |
| Config.Configuration.GetString | src/main/java/com/sphenon/basics/configuration/Configuration.java:204-215 | `StringOrDefault` of `PropertyValue` |
| Config.Configuration.GetBoolean | src/main/java/com/sphenon/basics/configuration/Configuration.java:314-332 | `BoolOrDefault` of `PropertyValue` |
| Config.Configuration.GetInteger | src/main/java/com/sphenon/basics/configuration/Configuration.java:392-397 | the default when nothing is found, else `ConvertToInt` |
| Config.Configuration.Get | src/main/java/com/sphenon/basics/configuration/Configuration.java:135-137 | the client-id lookup without widening, with the default |
| Config.Configuration.MustGet | src/main/java/com/sphenon/basics/configuration/Configuration.java:147-149 | the same, `EntryNotFound` when nothing is found |
| Config.Configuration.GetRecursive | src/main/java/com/sphenon/basics/configuration/Configuration.java:161-163 | the same with widening |
| Config.Configuration.GetBool | src/main/java/com/sphenon/basics/configuration/Configuration.java:245-247 | the boolean lookup with the default |
| Config.Configuration.GetInt | src/main/java/com/sphenon/basics/configuration/Configuration.java:375-380 | the default when nothing is found, else `ConvertToInt` |
| Config.Configuration.GetLong | src/main/java/com/sphenon/basics/configuration/Configuration.java:409-419 | the default when nothing is found, else `ConvertToLong` |
| Config.Configuration.GetList | src/main/java/com/sphenon/basics/configuration/Configuration.java:442-453 | the default when nothing is found, else `ListValue` |
| Config.Configuration.SetProperty | src/main/java/com/sphenon/basics/configuration/Configuration.java:466-474 | a null full key fails and changes nothing; otherwise the tables become `Write` |
| Config.Configuration.SetBool | src/main/java/com/sphenon/basics/configuration/Configuration.java:348-350 | writes `true`/`false` |
| Config.Configuration.SetInt | src/main/java/com/sphenon/basics/configuration/Configuration.java:428-430 | writes `Integer.toString(value)` |

## Left out

- File and class-path I/O, `Properties.load`, the configuration folders, `.configuration-name`, `loadProperties`/`loadDefaultProperties` and `includeProperties` are left out. The variant files are given as a finite map of documents. The property tables are state that tests and callers fill.
- An `IOException` while reading a variant file is not modelled, since the documents are given.
- `String.matches` is a parameter (`Matcher`). The model does not implement Java regular expressions.
- `RootConfig.RootConfiguration.Initialise` does not read the configuration folders, `.properties` files, includes or system properties, so after it the override table holds only the `--property=` switches.
- System properties (`include_system_properties`, `getSystemProperty`, the `ConfigurationVariant` system property) are left out. They read the JVM environment.
- Reloading when the property file changes (`getProperties`, `created`, `file`) is left out because it depends on the clock and the file system. The root tables are assumed initialised.
- `synchronized`, trace and messenger messages, `BootstrapNotifier` and `CoreInitialiser.initialisePackages` have no effect on the values modelled.
- `--debugger-wait` reads standard input. It is classified, and the input is not read.
- `RootConfig.RootConfiguration.CheckCommandLineArgs`: after initialisation its contract states only the returned arguments, not the parameters set before a refusal.
- `RootConfig.RootConfiguration.GetPropertyEntry` and the other root-table methods, the scope lookups (`Scopes.ConfigurationContext.GetPropertyEntry`, `OwnPropertyEntry`, `CallThenRootPropertyEntry`, `ParentPropertyEntry`), the `Config.Configuration` getters and `Factories.Factory.Create` require `variantsLoaded`. The `Variants` tag calls `getVariants`, whose first call is modelled separately by `GetVariants`.
- `@include.immediately` nesting is bounded by the constant `includeDepth` and fails beyond it. This stands for the stack overflow a self-including file causes in Java.
- Scope parent links are fixed when a scope is created. In Java they are looked up through the context each time. Scopes created later in a parent context are not seen by existing children.
- `setProperties` in Java can share one `Properties` object between scopes. Here each scope owns its table value, so aliasing between scopes is not modelled.
- Null values are not modelled in these places: a null property name in a modifier, and a null value passed to a setter. `Properties` refuses both, with a `NullPointerException`. A null modifier value or separator is rendered as `"null"`, as string concatenation does.
- `Text.ParseInteger` accepts ASCII digits only. `Integer.parseInt` also accepts other Unicode decimal digits.
- `ConfigurationMessenger`, `ConfigurationMap`, `ConfigurationStringPool`, `ConfigurationPackageInitialiser` and `CoreInitialiser` are not part of this model.
- The `Configuration` lookup methods take the root and scope state from a `Context` object. The Java `CallContext` is reduced to the scope registered at it.
- The static string and boolean `get`/`getRecursive`/`mustGet` overloads with fewer arguments are covered by `Config.Configuration.GetString` and `Config.Configuration.GetBoolean` with the corresponding flags. The instance boolean `mustGet` and `getRecursive` are covered by `GetBoolean` with the client id as prefix.
- `Evaluation.RootGet`, `Scopes.ChainGet`, `Scopes.Inherited`, `Scopes.CallThenRoot`, `Scopes.ParentGet`, `Scopes.ChainSet`, `Factories.ApplyModifier`, `Factories.Modifiers`, `Config.Find`, `Config.PropertyValue` and `Config.Write` are specification functions. Their own contracts state only that no scope or table key is added or removed. What they compute is stated by the lemmas listed above.

## Findings

| source | as written | input that shows it | evidently intended | confidence | as-written member | corrected member |
|---|---|---|---|---|---|---|
| src/main/java/com/sphenon/basics/configuration/ConfigurationContext.java:61-77 | when a parent returns a table, `getProperties` returns `this.properties`, which is null on that path | a scope without its own table whose location parent has a table | return the table the parent found (`p`) | not executed | Scopes.ConfigurationContext.GetProperties, Scopes.GetPropertiesMissesParentTable | Scopes.ConfigurationContext.NearestProperties, Scopes.NearestTableMeaning |
