# mo spec runner: a Dafny model

`run-spec.js` is the conformance harness of the Bash Mustache engine "mo". It works through the JSON fixture files of the Mustache specification. For each test it does three things:

- It turns the test's `data` into a Bash script that binds every key as a variable, array, associative array or function. The script then sources `mo` and renders the template.
- It applies a fixed table of per-test overrides and skips.
- It compares what the script prints with the expected text and counts passes, failures and skips per file.

This project models that core and proves what it promises. The modules, in dependency order:

- `Text`: JavaScript's `Array.prototype.join`, `String.prototype.split` on one character, and integer decimal rendering with its parser.
- `JsonString`: `JSON.stringify` of a string (ECMA-262 QuoteJSONString), and `Unquote`, a reader of one JSON string literal by the grammar in section 7 of RFC 8259. `Unquote` is the partner against which the encoding's round-trips are stated.
- `Fixture`: the values a parsed fixture holds, with JavaScript's truthiness and ToString.
- `Serializer`: `makeShellString` and the `addToEnvironment*` family.
- `ScriptBuilder`: `buildScript`.
- `GroupName`: `specFileToName`. The directory is stripped by the regular expression `/.*\//` exactly as JavaScript matches it: the leftmost match, and `.` does not cross a line terminator. Each string `replace` removes only the first occurrence.
- `TestCase`: the test object. Its properties are fields of a class, and the harness writes them in place.
- `Overrides`: the `testOverrides` table, all 31 entries, and `applyTestOverrides`. The update is a loop over the entry's keys, proved against `Overridden` and `Originals`, two definitions that do not loop. `applyTestOverrides` and `runTest` take the table as a parameter; `processSpecFile` passes them `TestOverrides`.
- `Runner`: `detectFailure`, the decision part of `runTest`, and `processSpecFile` after parsing (the in-order run of the tests and the counting loop).

Execution of the generated script is a parameter. An `Execution` value holds what the script printed and the error text the process reported, if any.

## Model

| member | source | states |
|---|---|---|
| Text.Join | run-spec.js:308 | `Array.prototype.join`, used for the script lines here and for the quoted chunks, the array words and the associative-array bindings (lines 234, 251, 271) |
| Text.Split | run-spec.js:229-230 | `value.split(/\n/)` gives one more part than the text has line feeds; no part holds a line feed; joining the parts with a line feed gives the text back |
| Text.Decimal | run-spec.js:238 | the ToString that the returned number goes through when it is joined (line 251) or interpolated (line 296): its decimal digits, with a `-` for negatives; `DecimalRoundTrip` states it reads back |
| Text.DecimalRoundTrip | run-spec.js:237-238 | a number is written as its decimal text, which reads back as the same integer |
| JsonString.Quote | run-spec.js:232 | `JSON.stringify(chunk)`: the escaped body between quotation marks; `UnquoteQuote` and `QuoteHasNoControl` state what it guarantees |
| JsonString.Escape | run-spec.js:232 | the escaped body of `JSON.stringify(chunk)` holds no character below U+0020 |
| JsonString.UnquoteQuote | run-spec.js:231-233 | reading the JSON literal that `JSON.stringify` writes for a chunk gives the chunk back |
| JsonString.QuoteHasNoControl | run-spec.js:231-233 | a quoted chunk contains no raw line feed and no other control character |
| JsonString.ScanEscaped | run-spec.js:232 | reading an escaped body followed by a closing quotation mark gives back exactly the original characters, and reading stops right after that mark |
| JsonString.ScanEscapeChar | run-spec.js:232 | each character's escape, whether two-character, `\u00XX` or the character itself, reads back as that character |
| Fixture.Truthy | run-spec.js:281 | JavaScript's ToBoolean, which `value.bash || …` applies: the empty string, 0, `false` and null are falsy, and everything else is truthy |
| Fixture.JsString | run-spec.js:281 | JavaScript's ToString, which the template literal applies to `value.bash`: a string is itself, a number its decimal text, an array its elements joined by `,`, an object `[object Object]` |
| Fixture.Lookup | run-spec.js:280-281 | property access on an object finds a value exactly when some entry has the key, and the value found belongs to an entry with that key |
| TestCase.Test.constructor | run-spec.js:429 | a test as `JSON.parse` gives it: its name, description, data, template, expected text and partials, with none of the properties the harness adds set (`Unrun`) |
| Serializer.ShellString | run-spec.js:222-242 | `makeShellString`, with its branches for booleans, strings, numbers and everything else; `ScalarEncoding`, `MultiLineString` and `StringStartsQuoted` state what it guarantees |
| Serializer.ScalarEncoding | run-spec.js:222-242 | `true` is written `"true"` with its quotes and `false` is written `""`; a number reads back as itself; the result is `ERR_CONVERTING` exactly for null, arrays and objects |
| Serializer.MultiLineString | run-spec.js:227-235 | a string with k line feeds is written as k+1 quoted chunks joined by `"` LF `"`; no chunk holds a raw line feed; unquoting the chunks and joining them with line feeds restores the string |
| Serializer.StringStartsQuoted | run-spec.js:227-235 | the text of a string value is never empty and starts with a quotation mark |
| Serializer.ArrayLine | run-spec.js:244-252 | `addToEnvironmentArray`; `ArrayLineLayout` states its layout and `AddToEnvironmentArray` is its loop |
| Serializer.ArrayLineLayout | run-spec.js:244-252 | an array is written `name=(`, then each element's shell string preceded by a space, in order, then ` )` |
| Serializer.AddToEnvironmentArray | run-spec.js:244-252 | the accumulating loop builds exactly the line `ArrayLineLayout` describes |
| Serializer.FirstNested | run-spec.js:257-262 | there is no answer exactly when no entry is a non-null object or array |
| Serializer.FirstNestedAt | run-spec.js:257-262 | when entry i is the first non-null object or array, the answer is its key |
| Serializer.BindingsAt | run-spec.js:257-268 | the array has one element per entry, in order: `[k]=` for null, `[k]=` and the shell string otherwise |
| Serializer.AssocLine | run-spec.js:254-272 | `addToEnvironmentObjectConvertedToAssociativeArray`; `AssocLineShape` states its two outcomes and `AddToEnvironmentAssoc` is its loop |
| Serializer.AssocLineShape | run-spec.js:254-272 | the result is a comment exactly when some entry is nested, and the comment names the first nested entry; otherwise it is `declare -A name`, a line feed, and `name=(…)` with one binding per entry in order |
| Serializer.AddToEnvironmentAssoc | run-spec.js:254-272 | the loop with its early return gives exactly that line |
| Serializer.CodeBody | run-spec.js:281 | the body of a lambda: the `bash` entry's string form when that entry is truthy, otherwise `echo "NO BASH VERSION OF CODE"` |
| Serializer.CodeLine | run-spec.js:280-282 | a lambda becomes `name() { body; }` |
| Serializer.LambdaLine | run-spec.js:280-282 | an object tagged `code` whose `bash` entry is a non-empty string becomes a Bash function that runs exactly that text |
| Serializer.EnvLine | run-spec.js:274-297 | `addToEnvironment` with `addToEnvironmentObject` folded in; `EnvLineDispatch` states each branch |
| Serializer.EnvLineDispatch | run-spec.js:274-297 | arrays become the array line; null becomes `#name is null`; an object tagged `code` becomes `name() { body; }`, with body `echo "NO BASH VERSION OF CODE"` when there is no `bash` entry and the `bash` text when it is a non-empty string; other objects become the associative array; scalars become `name=` and their shell string |
| Serializer.AddToEnvironment | run-spec.js:287-297 | the method's dispatch gives the line `EnvLineDispatch` describes |
| Text.MapAt | run-spec.js:301-303 | a list built by pushing `f(x)` for each `x` in order has element i equal to `f` of element i |
| ScriptBuilder.EnvLinesAt | run-spec.js:301-303 | one line per data key, in key order, each the `addToEnvironment` line of that key |
| ScriptBuilder.Script | run-spec.js:299-309 | `buildScript` as one expression; `ScriptLayout` states its layout and `BuildScript` is its loop |
| ScriptBuilder.ScriptLayout | run-spec.js:299-309 | the script is the interpreter line, each binding on its own line in key order, `. ./mo`, then `mo spec-runner/spec-template`; it starts with `#!/usr/bin/env bash` and ends with a line feed |
| ScriptBuilder.BuildScript | run-spec.js:299-309 | the line-pushing loop produces exactly that script |
| GroupName.StripDirectory | run-spec.js:186 | `replace(/.*\//, "")`: the leftmost match found by `DirectoryMatch` is cut out; `StripDirectoryOneLine` and `NoSlashNoMatch` state the result |
| GroupName.LineEnd | run-spec.js:186 | `.*` runs from its start to just before the first line terminator |
| GroupName.LastSlash | run-spec.js:186 | backtracking finds the last `/` within the line, or reports that the line has none |
| GroupName.DirectoryMatch | run-spec.js:186 | a match of `/.*\//` is non-empty, starts at or after the scan position and ends with `/` |
| GroupName.NoSlashNoMatch | run-spec.js:186 | a name without `/` has no match, so nothing is stripped |
| GroupName.StripDirectoryOneLine | run-spec.js:186 | on a one-line path, stripping leaves exactly the part after the last `/`: a suffix with no `/` in it, preceded by `/` whenever something was stripped |
| GroupName.RemoveFirst | run-spec.js:187-188 | `replace` with a string pattern and an empty replacement: the first occurrence `IndexOf` finds is cut out; `RemoveFirstAt`, `RemoveFirstOnce` and `RemoveAbsent` state the result |
| GroupName.IndexOf | run-spec.js:187-188 | finds the first occurrence of a pattern, or reports that there is none |
| GroupName.RemoveFirstAt | run-spec.js:187-188 | `replace` with a string cuts out exactly the first occurrence, so the text shrinks by the pattern's length |
| GroupName.RemoveFirstOnce | run-spec.js:187-188 | `replace` with a string removes only the first occurrence: a later non-overlapping occurrence survives |
| GroupName.RemoveAbsent | run-spec.js:187-188 | with no occurrence, the text is unchanged |
| GroupName.CapitalizeFrom | run-spec.js:189-191 | the global scan of `/(^|-)[a-z]/g` with an upper-casing replacer, resuming after each match; `CapitalizeFromPointwise` states it character by character |
| GroupName.CapitalizeFromPointwise | run-spec.js:189-191 | the global scan of `/(^|-)[a-z]/g` upper-cases a lower-case letter at the start or right after `-`, keeps every `-` and changes nothing else |
| GroupName.Capitalize | run-spec.js:189-191 | the result has the name's length, and each character is as `CapitalizedAt` says |
| GroupName.SpecFileToName | run-spec.js:184-192 | `specFileToName`: strip the directory, the first `.json`, the first `~`, then capitalise; `LambdasGroupName` works one path through all four steps |
| GroupName.StripSpecsDirectory | run-spec.js:186 | `specs/~lambdas.json` loses `specs/` |
| GroupName.RemoveJsonSuffix | run-spec.js:187 | `~lambdas.json` loses `.json` |
| GroupName.RemoveTilde | run-spec.js:188 | `~lambdas` loses `~` |
| GroupName.CapitalizeLambdas | run-spec.js:189-191 | `lambdas` becomes `Lambdas` |
| GroupName.LambdasGroupName | run-spec.js:184-192 | the group name of `specs/~lambdas.json` is `Lambdas` |
| Overrides.TestOverrides | run-spec.js:14-182 | all 31 entries, key for key, with their data, templates and skip reasons; `HtmlEscapingSkipped`, `CollisionDataReplaced` and `LambdaInterpolationEntry` state three of them |
| Overrides.Untouched | run-spec.js:388-391 | a property that no key of the entry names keeps its value |
| Overrides.LastPatchWins | run-spec.js:388-391 | a property named by the entry holds the entry's value as a whole (data objects are replaced, never merged) |
| Overrides.SnapshotsHoldOriginals | run-spec.js:388-391 | when each key is assigned once, `originals` has exactly the assigned keys, each with its value from before the override |
| Overrides.PatchesDistinct | run-spec.js:388 | an entry assigns each property at most once, and assigns `data`, `template` or `skip` exactly when it sets that property |
| Overrides.ApplyAllAppend | run-spec.js:388-391 | assigning one list of keys and then another is assigning their concatenation |
| Overrides.ApplyPatches | run-spec.js:388-391 | the assignments in order give `Overridden`: the named properties take the table's values and the rest keep theirs |
| Overrides.SnapshotPatches | run-spec.js:388-394 | the snapshot is `Originals`, the previous value of each named property |
| Overrides.HtmlEscapingSkipped | run-spec.js:54-56 | the table skips `Interpolation -> HTML Escaping` with the reason `HTML escaping is not supported`, so the skip is truthy, and leaves its data and template alone |
| Overrides.CollisionDataReplaced | run-spec.js:15-20 | the table's entry for `Comments -> Variable Name Collision` is the single assignment of `data`, and the test's data becomes exactly `{comment: 4}`, whatever it held before |
| Overrides.LambdaInterpolationEntry | run-spec.js:93-100 | the table's entry for `Lambdas -> Interpolation` is data holding one lambda whose `bash` is `echo -n "world"` |
| Overrides.OverrideFor | run-spec.js:381 | an entry is found exactly when the full name is set and is a key of the table, and the entry found is the table's entry for that name |
| Overrides.ApplyTestOverrides | run-spec.js:380-395 | with no entry nothing changes; with one, the named properties are replaced as `Overridden` says, `valuesBeforeOverride` becomes `Originals` and `overridesApplied` is set; the frame allows no other property to change |
| Runner.DetectFailure | run-spec.js:360-370 | a truthy script error means failure; output that is not strictly equal to the expected text means failure; otherwise the test passes |
| Runner.TrailingNewlineFails | run-spec.js:365 | the comparison does no normalisation: the expected text plus a line feed fails |
| Runner.PassIffExactOutput | run-spec.js:360-370 | without an error, a test passes exactly when its output equals the expected text |
| Runner.RunTest | run-spec.js:397-415 | partials default to empty; the full name is `group -> test`; overrides are applied under that name before the script is built from the resulting data; the result is "not executed" exactly when the resulting `skip` is truthy, and then output, error and verdict are untouched; otherwise output, error and verdict come from the execution and `DetectFailure` |
| Runner.RunFresh | run-spec.js:397-415 | a test that had not run ends in the `Ran` state. Its partials are set. Its data, template and skip are the table entry applied to the values it held before, or those values when there is no entry. `valuesBeforeOverride` is the entry's snapshot of them, and the flag records whether there was an entry. A skipped test has no output, no error and no failure |
| Runner.SkippedByTable | run-spec.js:380-407 | a test that has run is counted as skipped exactly when its table entry sets a truthy `skip`; when the entry sets no `skip`, exactly when the fixture's own `skip` was truthy |
| Runner.RunOutcome | run-spec.js:403-451 | after its run, a test is counted as skipped exactly when its `skip` is truthy; it fails exactly when it was executed and `DetectFailure` holds of the execution; a pass counts as overridden exactly when the table has an entry for its full name |
| Runner.Classify | run-spec.js:440-451 | the counting loop's branches in order: a failure first, then a truthy `skip`, then a pass that records `overridesApplied`; `RunOutcome` states what each verdict means for a test that has run |
| Runner.TallyCounts | run-spec.js:435-452 | `fail`, `skip` and `pass` count the tests with each verdict, and `passOverride` counts the passes that had overrides |
| Runner.TallyTotal | run-spec.js:435-452 | `pass + fail + skip` is the number of tests, and `passOverride <= pass` |
| Runner.TestSet.CountOutcomes | run-spec.js:435-452 | the counting loop leaves the counters at `TallyOf` of the tests' verdicts in order |
| Runner.TestSet.RunAll | run-spec.js:432-434 | the tests run in order, each with its own execution. Each one ends in the `Ran` state relative to the values it held before the loop, since a test not yet reached keeps its fields |
| Runner.TestSet.ProcessSpecFile | run-spec.js:430-452 | the group is named `specFileToName(filename)`; every test has run against the `testOverrides` table; a test is counted as skipped exactly when its entry in that table sets a truthy `skip`; the counters are the tally of the verdicts, summing to the number of tests, with `passOverride <= pass` |

## Left out

- Spawning `bash` through `child_process.exec`, the two-second timeout and capturing stdout: the process is foreign. What it returns is the `Execution` parameter of `RunTest`.
- Writing and removing `spec-runner/`: `setupEnvironment`, `writePartials` and `cleanup` are filesystem I/O.
- `processArraySequentially` is Promise chaining. It is modelled as the in-order loop it amounts to.
- Reading the fixture file, `JSON.parse` and the command line (`process.argv`, `process.exit`): these are I/O and foreign parsing. A parsed file is a `TestSet` of `Test` objects; a test property absent from the fixture is `None`, or `false` for the two flags that are only read for their truthiness.
- All console output: `debug`, `showFailureDetails`, the per-file result line and the final summary, including its per-file line, which prints the running `passOverride` total rather than the file's own.
- What Bash does with the generated text. For instance, `$` is not escaped by JSON quoting. Round-trips are stated against `Unquote` only.
- ShellString: numbers are integers. Non-integer numbers, integers of 1e21 or more (which JavaScript writes with an exponent) and integers beyond 2^53 (which lose precision) are not modelled.
- JsonString.Quote: characters are Unicode scalar values, so the lone surrogates that `JSON.stringify` writes as `\uXXXX` cannot occur.
- Fixture.Value: an object is the sequence of its own entries in the order JavaScript enumerates them. The rule that integer-like keys come first, and duplicate keys in a JSON text (the last one wins), are taken as already applied to that sequence. Own keys that shadow inherited properties such as `toString` are not modelled.
- Test.skip: only a string or an absent `skip` is modelled, since those are the only values the table and the fixtures give it.
- Overrides.Field: only the properties the table sets (`data`, `template`, `skip`) can be overridden. No entry names any other property.
- Test.data: only an object is modelled. A fixture whose `data` is a bare string or number would be read by `buildScript` through `Object.keys`, which gives a string's characters under index keys and no keys for a number. Such a test would be represented by that `Object.keys` view. Such data would belong to the tests that use `{{.}}` outside a loop, and the table skips those (run-spec.js:42-59). `buildScript` runs before the skip check, so only the stored script text would differ, never a verdict.
- Overrides.TestOverrides: all 31 entries are written out, but only three entries have a lemma of their own (`HtmlEscapingSkipped`, `CollisionDataReplaced`, `LambdaInterpolationEntry`). One statement about every entry is too costly for the solver.
- Runner.TestSet.ProcessSpecFile: it requires tests that have not run yet and that are distinct objects, as `JSON.parse` yields them.
