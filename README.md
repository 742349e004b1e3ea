# New Relic synthetic monitor exporter, modelled in Dafny

This project models the core of a Terraform-exporter plugin. The plugin
reads New Relic synthetic monitors and writes one Terraform resource file
per monitor, plus the `terraform import` directive that adopts it. The
model covers four parts:

- **Name and search helpers** (`internal/helpers.go`):
  - `ToSnakeCase`, the three-pass name normaliser;
  - the first-match searches `IndexOf` and `IndexOfWithField`;
  - `ToCtyList`.
- **Heredoc builder** (`internal/hcl.go`): `CreateHeredoc` builds the raw
  hclwrite tokens of a heredoc, optionally escaping `${` and `%{`.
- **Lookup tables** (`plugins/synthetics/constants.go`): the period table,
  the region table and the three resource type names.
- **Exporter** (`plugins/synthetics/plugin.go`):
  - `renderCommon` walks the tags and builds the shared resource body;
  - the simple, step and script variants each add to that body;
  - `printFile` builds the directive;
  - `exportSingleMonitor` dispatches on the monitor type and records the
    directive;
  - a work loop runs over the monitors, and the collector folds the errors
    into one message.

Modules, one file each:

| Module | File | Contents |
|---|---|---|
| `Wrappers` | `wrappers.dfy` | `Option`, `Result`, `Outcome` |
| `GoStrings` | `gostrings.dfy` | the Go `strings` functions the code calls |
| `Cty` | `cty.dfy` | cty values |
| `HclWrite` | `hclwrite.dfy` | tokens, bodies, blocks and files as values; set-or-append attributes |
| `Helpers`, `HelperExamples` | `helpers.dfy` | the helpers and their test examples |
| `Hcl` | `hcl.dfy` | the heredoc builder |
| `Constants` | `constants.dfy` | the lookup tables |
| `Models` | `models.dfy` | the response shapes |
| `Plugin` | `plugin.dfy` | rendering |
| `RenderProperties` | `renderprops.dfy` | what the rendered bodies contain |
| `Exporter` | `exporter.dfy` | dispatch, the exporter class and the error fold |

Each loop of the source is a Dafny method with invariants. Most methods
are proved equal to a specification function, and the properties are
lemmas about those functions; `IndexOf` and `IndexOfWithField` state the
first match directly in their postconditions. The exporter is a class.
Its `importCommands` field is the only state the model keeps. The source
also assigns `nrClient` and `outputDirectory` (`plugin.go:67` and `:71`),
which belong to the client construction and the file output left out
below. It also updates hclwrite block bodies in place through pointers,
which the model treats as values (see "Aliasing" below).

Three behaviours of the code worth noting:

- **Unsupported types.** An unsupported monitor type is an error
  (`plugin.go:175`), not a silent skip.
- **No locations.** A monitor with no `publicLocation` values is still
  rendered. The `locations_public` attribute is simply left out
  (`plugin.go:233`).
- **Validation text.** `validation_text` comes from the last
  `responseValidationText` tag, not the first. Every matching tag sets the
  attribute again (`plugin.go:269-273`).

An unmapped location or period looks up Go's zero value `""`.

## Model

| member | source | states |
|---|---|---|
| Helpers.ToSnakeCase | internal/helpers.go:25-49 | the loop builds exactly SnakeCase: the first pass, the trim of one `_` at each end, then the non-empty `_`-chunks joined by `_` |
| Helpers.SnakeCaseShape | internal/helpers.go:39-48 | a normalised name never starts or ends with `_` and never holds two `_` in a row |
| Helpers.SnakeCaseAlphabet | internal/helpers.go:26-37 | every rune of the result is `_`, a lower-case rune, a number, or an upper-case rune with no lower-case form (such as U+2102), for any table where lower-casing an upper-case rune gives a lower-case rune or the rune itself, as Go's tables do |
| Helpers.SnakeCaseIdempotent | internal/helpers.go:13-24 | normalising a normalised name changes nothing, under the same table condition |
| Helpers.LastPassesIdempotent | internal/helpers.go:39-48 | the trim-split-drop-join passes are idempotent |
| Helpers.FirstPassConcat | internal/helpers.go:26-37 | the first pass maps rune by rune, so it distributes over concatenation |
| Helpers.IndexOf | internal/helpers.go:51-62 | the result is -1 exactly when the needle is absent (including an empty haystack), otherwise the smallest index holding the needle |
| Helpers.IndexOfWithField | internal/helpers.go:64-86 | -1 when the needle lacks the field; elements without the field never match; otherwise the first index whose field equals the needle's, and -1 exactly when there is none |
| Helpers.ToCtyList | internal/helpers.go:88-102 | the list holds StringVal of each input string, in order (the empty list for an empty slice), and reads back as exactly the input strings |
| Cty.AsStringsStringList | internal/helpers_test.go:61-79 | reading a string list back via AsValueSlice/AsString gives the strings it was built from, same length and order |
| HelperExamples.SnakeCaseOfWords | internal/helpers.go:39-48 | two words with any run of separators between them come out joined by one `_` |
| HelperExamples.SnakeCaseOfLeadingGap | internal/helpers.go:39 | a leading separator is trimmed |
| HelperExamples.SnakeCaseCaselessUpper | internal/helpers.go:25-49 | an upper-case rune that lower-casing leaves unchanged (such as U+2102) is its own normal form |
| HelperExamples.SnakeCaseOfGluedWords | internal/helpers.go:34-35 | runes the first pass drops glue their neighbours together |
| HelperExamples.SnakeCaseSpace | internal/helpers_test.go:15-18 | "Hello World" gives "hello_world" |
| HelperExamples.SnakeCaseLeading | internal/helpers_test.go:25-28 | " hello WORLD" gives "hello_world" |
| HelperExamples.SnakeCaseRepeated | internal/helpers_test.go:35-38 | "Hello, world" gives "hello_world" |
| HelperExamples.SnakeCaseNonPrintable | internal/helpers_test.go:40-43 | "hello\u00a0world" (a no-break space, which is not printable) gives "helloworld" |
| Hcl.EscapeTwoPasses | internal/hcl.go:11-14 | the two ReplaceAll calls together equal one left-to-right escaping of `${` to `$${` and `%{` to `%%{` that changes nothing else |
| Hcl.UnescapeEscape | internal/hcl.go:11-14 | reading escaped text back as HCL template text gives the original text |
| Hcl.EscapeFree | internal/hcl.go:11-14 | text without `{` is not changed by escaping |
| Hcl.CreateHeredoc | internal/hcl.go:10-50 | the method returns exactly the Heredoc token layout for the marker and escaping flag |
| Hcl.HeredocFrame | internal/hcl.go:21-26 | at least three tokens; the first opens with "<<" + marker, the last closes with the marker less one leading `-` |
| Hcl.HeredocPlain | internal/hcl.go:37-42 | without a leading `-`: exactly three tokens, the middle a literal "\n" + text + "\n" (text unchanged when escaping is off) |
| Hcl.HeredocIndented | internal/hcl.go:28-36 | with a leading `-`: a newline token after the opener, then a literal and a newline per line, 2·(newlines + 1) + 3 tokens in all |
| Hcl.HeredocIndentedLiterals | internal/hcl.go:30-35 | with a leading `-`, joining the literal tokens with "\n" gives the (escaped) text back exactly |
| Hcl.HeredocEmptyIndented | internal/hcl.go:28-36 | an empty text under a dash marker still yields one empty literal line |
| Hcl.HeredocBytes | internal/hcl.go:21-47 | both layouts write the same bytes: "<<" + marker, "\n", the text, "\n", the closing marker |
| Hcl.HeredocRoundTrip | internal/hcl.go:10-50 | with escaping and a dash marker, the literal lines read back as template text are the original text |
| Hcl.EscapeExample | internal/hcl_test.go:14-22 | the test's text has "${a}" escaped to "$${a}" and nothing else changed |
| Hcl.HeredocPlainExample | internal/hcl_test.go:25-38 | an "EOF" heredoc writes "<<EOF\n" + text + "\nEOF" |
| Hcl.HeredocIndentedExample | internal/hcl_test.go:40-52 | a "-EOF" heredoc of the test text writes "<<-EOF\n", the escaped text and "\nEOF" |
| HclWrite.SetAttributeAbsent | plugins/synthetics/plugin.go:191 | setting an attribute the body lacks appends it at the end |
| HclWrite.SetAttributeLast | plugins/synthetics/plugin.go:269-273 | setting an attribute again replaces its expression in place |
| HclWrite.SetAttributeGet | plugins/synthetics/plugin.go:263-267 | an attribute just set reads back as its new expression; the others read as before |
| HclWrite.FirstMatchingBlock | plugins/synthetics/plugin.go:262 | the index of the first block of that kind with exactly those labels, or None when no block matches |
| Constants.PeriodMapSize | plugins/synthetics/constants.go:85-95 | nine periods, keyed "1" to "1440" |
| Constants.PeriodMapInjective | plugins/synthetics/constants.go:85-95 | no two periods share a name |
| Constants.DefaultPeriod | plugins/synthetics/constants.go:86-87 | "1" maps to EVERY_MINUTE, the renderer's default period, and "5" to EVERY_5_MINUTES |
| Constants.RegionMapSize | plugins/synthetics/constants.go:97-103 | five locations; "Washington, DC, USA" maps to US_EAST_1 |
| Constants.RegionMapInjective | plugins/synthetics/constants.go:97-103 | no two locations share a region |
| Constants.UnmappedLocation | plugins/synthetics/plugin.go:202 | a key outside a table looks up "" |
| Constants.ResourceTypesDistinct | plugins/synthetics/constants.go:4-6 | the three resource types are pairwise distinct |
| Plugin.Regions | plugins/synthetics/plugin.go:201-203 | one region per location value, in order, "" for an unknown one |
| Plugin.AppendRegions | plugins/synthetics/plugin.go:201-203 | the inner loop appends exactly the regions of the tag's values |
| Plugin.KeptByIndex | plugins/synthetics/plugin.go:222-224 | the two searches and the length test hold exactly when the tag's key is no golden tag's key and not imputed, and the tag has values |
| Plugin.NewTagBlock | plugins/synthetics/plugin.go:225-227 | a tag block holds key then value, the value the tag's values as a list |
| Plugin.ScanTags | plugins/synthetics/plugin.go:193-231 | the walk yields the locations of every publicLocation tag, the last period (mapped) and status (upper-cased) with their defaults, the last runtime type and version or "", and the blocks of the kept tags in order |
| Plugin.AppendBlocks | plugins/synthetics/plugin.go:249-251 | the tag blocks are appended in order |
| Plugin.WriteSettings | plugins/synthetics/plugin.go:233-252 | the body gets the optional locations_public, a blank line, period, status, the non-empty runtime settings, a blank line, the tag blocks and a blank line, each attribute appended as new |
| Plugin.RenderCommon | plugins/synthetics/plugin.go:187-255 | the file holds one resource block with the resource type and name as labels and the common body of the monitor |
| Plugin.PrintFile | plugins/synthetics/plugin.go:325-346 | success exactly when the write succeeds, with the directive (resource type, resource name, monitor GUID); otherwise the write's error |
| Plugin.ResourceBlockFound | plugins/synthetics/plugin.go:262 | FirstMatchingBlock finds renderCommon's resource block at index 0 |
| Plugin.SetAgain | plugins/synthetics/plugin.go:269-273 | setting an attribute once per matching tag leaves only the newest value, at the end of the body |
| Plugin.CommonItemsNames | plugins/synthetics/plugin.go:191-247 | renderCommon sets only name, locations_public, period, status, runtime_type and runtime_type_version |
| Plugin.SetSimpleFixed | plugins/synthetics/plugin.go:263-267 | the five fixed attributes are appended, in order, after the common body |
| Plugin.SetLastValue | plugins/synthetics/plugin.go:269-273 | the tag loop adds the attribute with the first value of the last matching tag, or nothing without one |
| Plugin.RenderSimpleMonitor | plugins/synthetics/plugin.go:257-276 | the result is SimpleResult: the common body, the fixed attributes and the optional validation_text, written and reported by printFile |
| Plugin.StepBlocks | plugins/synthetics/plugin.go:291-296 | one step block per step, in order |
| Plugin.NewStepBlock | plugins/synthetics/plugin.go:292-295 | a step block holds ordinal, type and values |
| Plugin.AppendSteps | plugins/synthetics/plugin.go:291-296 | the step loop appends exactly the step blocks, in fetched order |
| Plugin.RenderStepMonitor | plugins/synthetics/plugin.go:278-299 | the result is StepResult: a failed steps query is returned as the error; otherwise the common body and the step blocks, written and reported by printFile |
| Plugin.RenderScriptMonitor | plugins/synthetics/plugin.go:301-323 | the result is ScriptResult: a failed script query is returned as the error; otherwise the common body, the optional script_language and the script heredoc, written and reported by printFile |
| RenderProperties.LocationsConcat | plugins/synthetics/plugin.go:199-204 | the locations of concatenated tag lists are concatenated, in tag order |
| RenderProperties.LocationsEmpty | plugins/synthetics/plugin.go:233-235 | there are no locations (so no locations_public) exactly when no publicLocation tag has a value |
| RenderProperties.LastValueAt | plugins/synthetics/plugin.go:206-220 | a setting is the first value of the last tag with its key |
| RenderProperties.LastValueAbsent | plugins/synthetics/plugin.go:194-197 | a setting is unset exactly when no tag has its key |
| RenderProperties.LastValueOverwrite | plugins/synthetics/plugin.go:206-220 | a later tag with the key overwrites what earlier ones set |
| RenderProperties.PeriodDefault | plugins/synthetics/plugin.go:194 | without a period tag the period is EVERY_MINUTE, which is periodMap["1"] |
| RenderProperties.PeriodLast | plugins/synthetics/plugin.go:206-208 | otherwise the period is periodMap of the last period tag's first value |
| RenderProperties.StatusDefault | plugins/synthetics/plugin.go:195 | without a monitorStatus tag the status is ENABLED |
| RenderProperties.StatusLast | plugins/synthetics/plugin.go:210-212 | otherwise the status is the last monitorStatus tag's first value upper-cased |
| RenderProperties.ToUpperRunes | plugins/synthetics/plugin.go:211 | upper-casing keeps the length and maps each rune |
| RenderProperties.TagBlocksConcat | plugins/synthetics/plugin.go:222-230 | tag blocks keep tag order over concatenation |
| RenderProperties.TagBlocksSound | plugins/synthetics/plugin.go:222-230 | every tag block is the block of a kept tag |
| RenderProperties.TagBlocksComplete | plugins/synthetics/plugin.go:222-230 | every kept tag has its tag block |
| RenderProperties.CommonBodyAttributes | plugins/synthetics/plugin.go:233-247 | name, period and status always read back as set; locations_public only for a non-empty list; runtime_type and runtime_type_version only when non-empty |
| RenderProperties.CommonItemsAttributes | plugins/synthetics/plugin.go:187-247 | for a monitor, the common body's attributes read back as the tags determine them |
| RenderProperties.CommonBodyBlocks | plugins/synthetics/plugin.go:248-252 | the body is the settings, a blank line, the tag blocks in order, and a closing blank line |
| RenderProperties.SimpleValidationText | plugins/synthetics/plugin.go:269-273 | validation_text reads back as the last responseValidationText tag's first value, and is absent without such a tag |
| RenderProperties.SimpleFixedAttributes | plugins/synthetics/plugin.go:263-267 | type, uri and verify_ssl read back as the monitor type, the monitored URL and true; enable_screenshot_on_failure_and_script and bypass_head_request read back as true |
| RenderProperties.StepItemsLayout | plugins/synthetics/plugin.go:291-296 | the step body is the common body followed by one step block per fetched step, in fetched order |
| RenderProperties.TagBlockAttributes | plugins/synthetics/plugin.go:226-229 | a tag block holds the tag's key and its values as a list, which reads back as the values |
| RenderProperties.StepBlockAttributes | plugins/synthetics/plugin.go:293-295 | a step block's ordinal, type and values read back as the step's |
| RenderProperties.ScriptLanguage | plugins/synthetics/plugin.go:314-318 | script_language is the first value of the last scriptLanguage tag, and is absent without one |
| RenderProperties.ScriptAttribute | plugins/synthetics/plugin.go:320 | the script attribute is CreateHeredoc(text, "-SCRIPT", true), whose lines read back as the fetched text |
| Exporter.KindOf | plugins/synthetics/plugin.go:167-176 | BROWSER, STEP_MONITOR and SCRIPT_BROWSER select the simple, step and script variants; every other type selects none |
| Exporter.UnsupportedTypes | plugins/synthetics/plugin.go:166 | SIMPLE and SCRIPT_API are unsupported, and the match is case-sensitive |
| Exporter.QuotePlain | plugins/synthetics/plugin.go:175 | %q leaves printable ASCII text without `"` or `\` unchanged |
| Exporter.UnsupportedPlain | plugins/synthetics/plugin.go:175 | for such a type the error is "unsupported error type" followed by the type in double quotes |
| Exporter.ResourceTypeInjective | plugins/synthetics/constants.go:4-6 | distinct variants write distinct resource types |
| Exporter.RenderDirective | plugins/synthetics/plugin.go:258-259 | a successful render names a supported variant, and its directive is (that variant's resource type, ToSnakeCase(name), GUID) |
| Exporter.RenderEarlyFailures | plugins/synthetics/plugin.go:174-181 | an unsupported type fails with its error; a step or script monitor whose query fails fails with the query's error |
| Exporter.SyntheticExporter.constructor | plugins/synthetics/plugin.go:33-38 | a new exporter has no directives |
| Exporter.SyntheticExporter.ExportSingleMonitor | plugins/synthetics/plugin.go:161-185 | a successful render appends exactly its directive and returns no error; a failure or an unsupported type leaves the directives unchanged and returns the error |
| Exporter.SyntheticExporter.ExportMonitor | plugins/synthetics/plugin.go:148-157 | one monitor taken off the queue: the directives gain its directive, and the errors sent gain its error |
| Exporter.SyntheticExporter.Export | plugins/synthetics/plugin.go:91-143 | after the batch the directives are the old ones followed by those of the monitors that rendered, in order; the returned error is the fold of the others' errors |
| Exporter.CollectErrors | plugins/synthetics/plugin.go:99-110 | the collector loop builds exactly AggregateError of the errors received |
| Exporter.BatchAccounting | plugins/synthetics/plugin.go:183 | each monitor yields either a directive or an error: the counts add up to the batch size |
| Exporter.ErrorsEmpty | plugins/synthetics/plugin.go:99-110 | the batch has no error exactly when every monitor renders |
| Exporter.DirectivesAllRendered | plugins/synthetics/plugin_test.go:112-127 | when every monitor renders, there is one directive per monitor, in order, each with that monitor's GUID as its ID |
| Exporter.AggregateNone | plugins/synthetics/plugin.go:99-110 | the aggregate error is nil exactly when no error was received |
| Exporter.AggregateSteps | plugins/synthetics/plugin.go:103-108 | the first error gives the header, "\n" and the message; each later error adds "\n" and its message |
| Exporter.AggregateLines | plugins/synthetics/plugin.go:103-108 | for single-line messages, splitting the aggregate on "\n" gives the header and then the messages in receipt order |

## Left out

- Concurrency. The goroutines, the WaitGroup, and the work and error
  channels (`plugin.go:91-143`) are left out. Export is a sequential loop
  with a single worker, so errors arrive in monitor order. The unsynchronised
  append to `importCommands` and the read of `commandError` after `close`
  are races, not behaviour.
- NerdGraph queries. They become the `fetchSteps` and `fetchScript`
  functions of `Env`, each returning a success or an error. The monitor
  search and client construction (`plugin.go:60-77`), including the
  assignment of `s.nrClient`, are left out.
- File I/O. `filepath.Abs`, `os.Create` and `WriteTo` in printFile become
  `Env.writeFile`, keyed by the resource name, which passes or fails, so
  `s.outputDirectory` (`plugin.go:71`) is not kept. The provider file
  (`plugin.go:79-89`) is left out.
- hclwrite formatting. Indentation and alignment, as in
  `internal/hcl_test.go:51`, are not modelled. The dash example's
  expected text is stated without that indentation. cty values are plain
  datatypes.
- Unicode tables. The tables behind `unicode.IsUpper`/`IsLower`/`IsNumber`/
  `IsPrint`/`ToLower`/`ToUpper` are a `RuneTable` parameter. The rune-set
  lemmas assume only what Go's tables satisfy: `_` is printable, and
  lower-casing an upper-case rune gives a lower-case rune or, for a rune
  without a lower-case form such as U+2102, the rune itself. The test
  examples use a small sample table, so the emoji examples of
  `helpers_test.go` (lines 20-23 and 30-33) are not proved.
- Exporter.Quote: implements `%q` escaping only for `"`, `\`, newline,
  carriage return and tab. Other escapes, such as `\x..` for non-printable
  runes, are not modelled.
- `Values[0]` panics. The unguarded `tag.Values[0]` is a precondition:
  - every period, monitorStatus, runtimeType and runtimeTypeVersion tag has
    a value;
  - so does every responseValidationText tag, for a simple monitor;
  - so does every scriptLanguage tag, for a script monitor whose query
    succeeded.
- Aliasing. hclwrite blocks are pointers in Go. Here bodies are values,
  and the resource block is replaced in the file by its index.
- The definition of `imputedTags` is not part of this model. The list is
  the `imputedTags` parameter of `Env`.
- CLI plumbing. `Help`, `Info` and kong argument parsing (`plugin.go:40-63`),
  `internal/help.go` and `main.go` are CLI plumbing and are not modelled.
