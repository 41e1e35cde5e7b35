# quickenv in Dafny

A model of the Go package `quickenv`, a loader for dotenv files, with proofs
about it. Loading a file works in these steps:

1. The options are defaulted.
2. The file is searched for, first in the working directory and then in up to `MaxLevels` parent directories, nearest first.
3. The file is read line by line. Each line is trimmed. Blank lines and `#` comments are skipped.
4. Every other line is parsed as `KEY=VALUE`. An optional `export` prefix is allowed. The split is at the first `=` outside quotes, the key must be valid, and one pair of matching quotes is stripped from the value.
5. The variable is set when `Overwrite` is on or it is currently unset or empty.

The count of variables set is returned, together with the first error that
stops the load.

Modules:

- `Results` (results.dfy): `Option` and `Result`.
- `Text` (text.dfy): `strings.TrimSpace`, `strings.TrimPrefix` and `strings.HasPrefix`, with the white-space, letter and digit classes they use.
- `LineParser` (line_parser.dfy): `parseLine`, `isValidEnvKey` and `unquoteValue`.
  - The specification is the function `LineEntry`.
  - The delimiter scan is the method `FindDelimiter`.
  - `ParseLine` is the imperative routine, proved equal to `LineEntry`.
- `Options` (options.dfy): `LoadOptions`, `DefaultLoadOptions` and `parseOptions`.
- `Locator` (locator.dfy): `findEnvFile`.
  - The file system is a set of existing paths. A path is its list of components from the root.
  - The specification is the function `Locate`. The loop is `FindEnvFile`.
- `Loader` (loader.dfy): `loadFromReader`, `Load`, the debug mask, `GetEnv` and `GetEnvOrPanic`.
  - The process environment is the class `Environment`. Its `vars` map is updated in place by `Setenv`.
  - The loop's specification is `ApplyLines`: every line is turned into an optional entry (`EntriesOf`), then the entries are applied in order (`ApplyEntries`).

The debug mask hides every value: below five characters it shows one `*`
per character, and from five characters on it shows `***`.

## Model

| member | source | states |
|---|---|---|
| Text.IsSpace | quickenv.go:149 | the white space `strings.TrimSpace` removes: Go's `unicode.IsSpace` set |
| Text.IsLetter | quickenv.go:252 | the letters `unicode.IsLetter` accepts, restricted to ASCII |
| Text.IsDigit | quickenv.go:258 | the digits `unicode.IsDigit` accepts, restricted to ASCII |
| Text.HasPrefix | quickenv.go:152 | `strings.HasPrefix`: the string starts with the prefix |
| Text.TrimPrefix | quickenv.go:195 | one copy of the prefix is removed when present, otherwise the string is unchanged |
| Text.TrimSpace | quickenv.go:149 | the result has no white space at either end and is no longer than the input |
| Text.TrimSpaceIsInfix | quickenv.go:222-223 | the trimmed string is a middle slice of the input with only white space cut on each side |
| Text.TrimSpaceAround | quickenv.go:222-223 | white space around a trimmed string is exactly what is removed |
| LineParser.ValidKey | quickenv.go:245-264 | the key rule: non-empty, a letter or `_` first, then only letters, digits or `_` |
| LineParser.IsValidEnvKey | quickenv.go:245-264 | true exactly when the key is non-empty, starts with a letter or `_`, and continues with letters, digits or `_` |
| LineParser.ValidKeyIsPlain | quickenv.go:245-264 | a valid key holds no `=`, no quote and no white space |
| LineParser.ExampleKeys | quickenv_test.go:155-157 | the validator's test table: `PORT`, `API_KEY`, `DEBUG`, `_INTERNAL`, `Var1`, `A` are valid; `""`, `123`, `-`, `my-var`, `" "`, `a b`, `.hidden` are not |
| LineParser.Unquote | quickenv.go:266-276 | both ends carrying the same quote means exactly one quote is stripped from each end; otherwise the value is returned unchanged |
| LineParser.UnquoteQuoted | quickenv.go:268-276 | quoting any text with `"` or `'` and stripping gives the text back verbatim, inner quotes and backslashes included |
| LineParser.UnquoteLength | quickenv.go:268-276 | the length drops by exactly two if and only if the value is quoted at both ends, and is unchanged otherwise |
| LineParser.Step | quickenv.go:205-211 | only a quote character changes the scan state; outside a span a quote opens a span with itself; inside a span every character but the opening quote, the other quote included, leaves it open |
| LineParser.FirstDelimiter | quickenv.go:197-216 | a position it returns holds an `=` inside the text; `FirstDelimiterIsFirst` shows it is the first one outside quotes |
| LineParser.DelimiterFrom | quickenv.go:203-216 | a position found from `i` on holds an `=` |
| LineParser.FirstDelimiterIsFirst | quickenv.go:197-216 | the chosen position is an `=` outside every quoted span and none comes before it; none is chosen only when there is none |
| LineParser.FindDelimiter | quickenv.go:197-216 | the scan loop returns the first `=` outside quotes, or -1 exactly when there is none |
| LineParser.ParseLine | quickenv.go:189-238 | success returns the key and value of `LineEntry`; failure returns the parse error and two empty strings |
| LineParser.LineEntry | quickenv.go:193-238 | every accepted line yields a valid key |
| LineParser.BodyEntry | quickenv.go:197-237 | every accepted body yields a valid key |
| LineParser.PlainStaysUnquoted | quickenv.go:203-211 | text with no quote and no `=` leaves the scan outside quotes |
| LineParser.DelimiterAfterPlain | quickenv.go:203-215 | after a plain key, the `=` that follows is the delimiter whatever comes after it |
| LineParser.EntryOfSplit | quickenv.go:195-237 | a line whose body is a plain head, `=`, and a rest parses to the trimmed head and the trimmed, unquoted rest |
| LineParser.NoExportPrefix | quickenv.go:195 | a valid key that does not start with `export`, followed by a non-key character, is not stripped |
| LineParser.SameBodySameEntry | quickenv.go:195 | lines equal after stripping `export` parse alike |
| LineParser.RoundTrip | quickenv.go:222-237 | `K=V`, for a valid key not starting with `export` and a value without outer white space, parses to `(K, unquote(V))` |
| LineParser.RoundTripSpaced | quickenv.go:195-237 | the same with white space around key and value and an optional `export` prefix |
| LineParser.RoundTripQuoted | quickenv.go:197-237 | `K="text"` or `K='text'` parses to the text between the quotes, whatever it holds, `=` included |
| LineParser.ExportStripped | quickenv.go:194-195 | one literal `export` is removed with no space required after it |
| LineParser.InsideQuotes | quickenv.go:205-211 | inside a span opened by a quote, every other character keeps the span open |
| LineParser.UnclosedQuoteHidesDelimiters | quickenv.go:203-220 | text that opens a quote and never closes it has no delimiter |
| LineParser.QuotedSpanSkipped | quickenv.go:203-215 | an `=` right after a closed quoted span is the delimiter, and no `=` inside the span is |
| LineParser.InvalidKeyFails | quickenv.go:222-232 | text before the delimiter that is non-empty but invalid once trimmed is reported as the invalid trimmed key |
| LineParser.QuotedKeyRejected | quickenv.go:222-232 | a key written in quotes is rejected with the quotes as part of the key |
| LineParser.BlankKeyFails | quickenv.go:222-228 | only white space before the delimiter gives the empty-key error |
| LineParser.NoDelimiterFails | quickenv.go:218-220 | no `=` outside quotes gives the missing-delimiter error |
| LineParser.FailureReasons | quickenv.go:218-232 | the missing-delimiter error occurs exactly when there is no delimiter; an invalid-key error names a non-empty key that fails validation |
| LineParser.EntryConditions | quickenv.go:218-237 | a line is accepted exactly when it has a delimiter and the trimmed text before it is a valid key; the empty-key error occurs exactly when that text trims to nothing, and the invalid-key error exactly when it is non-empty and invalid |
| LineParser.ParsedKeyIsPlain | quickenv.go:222-232 | an accepted key never contains `=`, a quote or white space |
| LineParser.ExampleSimple | quickenv_test.go:17-22 | `DB_PORT=8080` gives `DB_PORT`, `8080` |
| LineParser.ExampleDoubleQuoted | quickenv_test.go:31-36 | `NAME="Alex Edwards"` gives `Alex Edwards` |
| LineParser.ExampleEmptyValue | quickenv_test.go:45-50 | `DB_PORT=` gives an empty value |
| LineParser.ExampleSpaced | quickenv_test.go:59-64 | ` KEY = value ` gives `KEY`, `value` |
| LineParser.ExampleEqualsInQuotes | quickenv_test.go:73-78 | `CONN_STR="user=pass@host:5432"` keeps its inner `=` |
| LineParser.ExampleMissingDelimiter | quickenv_test.go:80-94 | `justvalue` and `# comment` have no delimiter |
| LineParser.ExampleEmptyKey | quickenv_test.go:85-89 | `=value`, and `export=1` as well, have an empty key |
| LineParser.ExampleExport | quickenv_test.go:95-100 | `export NAME="John Doe"` gives `NAME`, `John Doe` |
| LineParser.ExampleMultipleEquals | quickenv_test.go:102-107 | `NAME==John=Doe` gives the value `=John=Doe` |
| LineParser.ExampleQuotedKey | quickenv_test.go:109-113 | `'NAME='=John=Doe` is rejected as the invalid key `'NAME='` |
| LineParser.ExampleUnclosedQuote | quickenv.go:203-220 | `"A=x` has no delimiter |
| LineParser.NotExportLine | quickenv.go:195 | a line not starting with `e` is parsed whole |
| Options.DefaultLoadOptions | quickenv.go:31-39 | `.env`, no overwrite, no debug, three levels, and these are usable |
| Options.ParseOptions | quickenv.go:74-100 | the result is always usable; no record or a nil first record gives the defaults; otherwise the first record is copied, with an empty file name and a non-positive level count replaced |
| Options.ParseOptionsKeepsUsable | quickenv.go:81-96 | a usable record passes through unchanged |
| Options.ParseOptionsIdempotent | quickenv.go:81-100 | defaulting twice is defaulting once |
| Options.ParseOptionsReadsFirst | quickenv.go:82 | only the first record is read |
| Locator.Resolve | quickenv.go:107-127 | the path a result names: the name in the working directory, or the name joined to the directory found |
| Locator.Climb | quickenv.go:117-132 | a failed climb reports not-found for the name; a successful one returns the name joined to a directory where it exists |
| Locator.Locate | quickenv.go:105-133 | a failure is not-found naming the file; a success names the file and a path that exists |
| Locator.Parent | quickenv.go:121-123 | the root is its own parent and no other directory is; otherwise the parent is the directory minus its last component |
| Locator.Reach | quickenv.go:117-124 | the number of levels the climb can visit never passes the root |
| Locator.FindEnvFile | quickenv.go:105-133 | the loop returns the result of `Locate` |
| Locator.ClimbHit | quickenv.go:117-130 | a climb that finds the file returns the nearest level within reach that holds it |
| Locator.ClimbMiss | quickenv.go:117-132 | a climb that fails reports not-found for the name, and no level within reach holds the file |
| Locator.LocateNearestFirst | quickenv.go:102-133 | the working directory wins; otherwise the nearest ancestor within `maxLevels` hops, no higher than the root, that holds the file; otherwise not-found naming the file |
| Locator.LocatedExists | quickenv.go:107-108 | whatever is returned exists |
| Locator.ClimbMonotone | quickenv.go:120-130 | allowing more levels never changes a file already found |
| Locator.ExampleTwoLevelsUp | quickenv.go:106-130 | from `/home/user/project/cmd` with copies in `/home/user` and at the root, the copy two levels up is returned |
| Loader.Unset | quickenv.go:166 | `os.Getenv(key) == ""`: the variable is absent or empty |
| Loader.Environment.constructor | quickenv.go:166-167 | the environment starts with the given variables and the given host rule for sets |
| Loader.Environment.Getenv | quickenv.go:166 | the empty string exactly when the variable is unset or empty, otherwise its value |
| Loader.Environment.Setenv | quickenv.go:167 | success exactly when the host accepts; on success the variable holds the value, on refusal nothing changes |
| Loader.EntryOf | quickenv.go:149-163 | the entry a raw line contributes after trimming; its key is always valid |
| Loader.EntryOfLine | quickenv.go:151-163 | a trimmed line contributes an entry exactly when it is non-empty, does not start with `#` and parses, and the entry is then the parse result |
| Loader.ApplyEntry | quickenv.go:165-170 | the count goes up by one exactly when there is an entry, `overwrite` is on or the variable is unset, and the host accepts the set; then the variable gets the value; a refused set records the key and changes neither the variables nor the count; otherwise nothing changes |
| Loader.ApplyEntries | quickenv.go:148-181 | the loop: entries applied in order from the initial outcome, stopping at the first refused set |
| Loader.ApplyLines | quickenv.go:144-181 | the loop over the lines of a file: each line's entry, applied in order |
| Loader.ReaderError | quickenv.go:167-186 | no error exactly when no set was refused and the scanner did not fail; a read error only when no set was refused |
| Loader.EntriesOf | quickenv.go:148-163 | one optional entry per line |
| Loader.EntriesOfIndex | quickenv.go:148-163 | the entry at position `i` comes from line `i` alone |
| Loader.EntriesOfAppend | quickenv.go:148-163 | parsing line by line commutes with splitting the input |
| Loader.LoadLine | quickenv.go:148-180 | one pass of the loop body changes the environment, the count and the failure as `ApplyEntry` says for that line's entry |
| Loader.LoadFromReader | quickenv.go:135-187 | the environment and count after the loop are those of `ApplyLines`; a refused set is reported first, then a read error |
| Loader.Load | quickenv.go:41-59 | options are defaulted; a file that is not found or cannot be opened leaves the environment unchanged and loads nothing; otherwise the file's lines are applied as `LoadFromReader` says |
| Loader.ApplyEntriesSnoc | quickenv.go:148-181 | one more line is one more application of the loop body, unless the loop already failed |
| Loader.ApplyEntriesAppend | quickenv.go:148-181 | running the loop over `a + b` is running it over `a`, then over `b` from where it stopped |
| Loader.FailedStaysFailed | quickenv.go:167-169 | after a refused set no later line runs |
| Loader.StopsAtFailure | quickenv.go:167-169 | a refused set ends the load with the count reached so far, whatever follows |
| Loader.LoadedAtMostEntries | quickenv.go:170 | each entry adds at most one to the count, and the count never goes down |
| Loader.LoadedAtMostLines | quickenv.go:146-170 | a file of `n` lines loads at most `n` variables |
| Loader.SkippedLineNoEffect | quickenv.go:151-163 | blank lines, comments and lines that do not parse change neither the environment nor the count |
| Loader.Present | quickenv.go:151-163 | keeping only the present entries never lengthens the list |
| Loader.OnlyEntriesMatter | quickenv.go:151-163 | dropping every skipped line changes nothing |
| Loader.OtherVariablesUntouched | quickenv.go:165-170 | a variable no line names keeps its state |
| Loader.NoOverwriteKeepsSetVariables | quickenv.go:138-140 | without overwrite, a variable that is set and non-empty never changes |
| Loader.NeverFails | quickenv.go:167-169 | a host that refuses nothing never stops the loop |
| Loader.OverwriteLastWins | quickenv.go:166-167 | with overwrite and a host that refuses nothing, the last line naming a variable decides its value |
| Loader.ThreeEntries | quickenv.go:165-170 | without overwrite, a line for a set variable and a skipped line change nothing, and a line for an unset one sets it and counts one |
| Loader.EntryOfTrimmed | quickenv.go:149-157 | a non-comment line without outer white space contributes the entry its parse gives, or nothing when the parse fails |
| Loader.ExampleEntryOfSet | quickenv.go:149-157 | `DB_PORT=8080` contributes `DB_PORT`, `8080` |
| Loader.ExampleEntryOfComment | quickenv.go:151-153 | `# comment` contributes nothing |
| Loader.ExampleEntryOfExport | quickenv.go:149-157 | `export NAME="John Doe"` contributes `NAME`, `John Doe` |
| Loader.ExampleEntryOfExportShort | quickenv.go:149-157 | `export NAME="A"` contributes `NAME`, `A` |
| Loader.EntriesOfThree | quickenv.go:148-163 | three lines give three entries, each its own line's |
| Loader.ExampleThreeLines | quickenv.go:144-187 | `DB_PORT=8080`, `# comment`, `export NAME="A"` without overwrite, with `DB_PORT` set and `NAME` not: only `NAME` is set, to `A`, and the count is one |
| Loader.Repeat | quickenv.go:175 | `n` copies of the character |
| Loader.DebugMask | quickenv.go:173-176 | all `*`, as long as the value below five characters and three long from five on |
| Loader.MaskRevealsOnlyLength | quickenv.go:173-176 | values of the same length, or both of five characters or more, get the same mask |
| Loader.GetEnv | quickenv.go:278-285 | the variable's value when it is set and non-empty, the default otherwise |
| Loader.GetEnvOrPanic | quickenv.go:287-293 | for a set, non-empty variable, its value |

## Left out

- File opening and closing, `os.Stat`, and `filepath.Dir`/`Join` are abstracted. The file system is a set of existing paths plus a map from openable paths to their lines and a read-failure flag.
- The pathname is one path component, and `filepath` cleaning is not modelled.
- An `os.Getwd` failure is not modelled: the working directory is a parameter.
- `bufio.Scanner` is replaced by the sequence of lines it delivers and a flag saying whether it stopped on a read error. Its token-size limit is part of that flag.
- Debug logging to standard error is not modelled, apart from the mask it prints (`DebugMask`). `Debug` is carried in the options and has no other effect.
- `os.Setenv` can be refused by the host. Which pairs the host refuses is outside the package, so it is the `accepts` relation of `Environment`.
- Error messages are datatypes (`ParseError`, `FindError`, `LoadError`), not formatted strings.
- `MustLoad` is not modelled: it is `Load` plus a panic on error.
- GetEnvOrPanic: the panic is the precondition that the variable is set and non-empty.
- IsValidEnvKey: letters and digits are ASCII only. The first character is read as one character, not as a single byte. Non-ASCII keys such as `кошка` are rejected, as in the Go test, but by a different route.
- DebugMask: counts characters, not the UTF-8 bytes Go's `len` counts. The two agree on ASCII values.
- FindDelimiter: positions are character indices, not byte offsets. The two agree on ASCII lines.
- Text.TrimSpace: uses Unicode's white-space set but no decoding of invalid UTF-8.
- Concurrent use of the process environment is not modelled.
- The `Version` constant and example/main.go, a demo program that calls `Load` and `GetEnv`, are not modelled.
- The test cases for single quotes (`CITY='New York'`), quoted empty and spaced values, and `export API_KEY=abc123` have no example lemma of their own. `RoundTripQuoted` and `RoundTripSpaced` cover them in general form.
- The quote stripper's test table (quickenv_test.go:135-144) has no example lemma. `Unquote`'s contract and `UnquoteQuoted` cover its cases in general form.
