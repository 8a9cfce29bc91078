# lkit: string helpers and the logkit logger, in Dafny

This project models two cooperating parts of the Go library `lkit`.

**strkit** (`strkit/strkit.go`) is a set of string helpers:
- emptiness and blankness tests, where only the space character counts as blank;
- `DefaultIfEmpty` and `DefaultIfBlank`;
- changing the case of the first byte;
- camel-casing of `_`-separated words;
- `FillSlice`;
- `FormatParam`, which fills in `{key}` placeholders from a map;
- the positional formatters `Format` and `FormatSQL`. Each argument in turn replaces the first placeholder left in the text, and the search then continues after that placeholder.

**logkit** (`logkit/logger.go`, `logkit/loghandle.go`) is a small logger:
- A `LogMgr` holds a threshold level, a store path, a prefix and a chain of handlers keyed by name.
- `logf` lets a call through when its level is *at most* the threshold. It builds a record and hands it to every handler of the chain.
- The console handler prints the formatted line between colour escapes.
- The file handler appends the line to `logkit.log` under the store path. When it cannot, it prints a yellow warning instead.

Layout, one Dafny module per file:

| file | module | contents |
|---|---|---|
| `wrappers.dfy` | `Wrappers` | `Option` |
| `strconv.dfy` | `Strconv` | Go's `strconv.Itoa`, with a decimal reader as its inverse |
| `gostrings.dfy` | `GoStrings` | Go's `strings.Index`, `Split`, `Trim` and `Replace(…, 1)`, as far as strkit uses them |
| `strkit.dfy` | `StrKit` | strkit's helpers and formatters |
| `logrecord.dfy` | `LogLevel` | level constants, `levelStr`, the record (Go's `Logger`) |
| `loghandle.dfy` | `LogHandle` | `formatLog`, `consoleOut`, the console and file handlers, handler names |
| `logger.dfy` | `LogKit` | the `LogMgr` class, registration, `logf` |

Modelling choices:
- **Strings.** A string is a sequence of characters, one character per byte of the Go string.
- **Arguments.** A Go `any` argument is an `Arg`: `Int`, `Str`, or a value already rendered as text.
  - `Float` is text as `strconv.FormatFloat` renders it.
  - `Time` is text as `FormatTime` renders it.
  - `Other` is text as `fmt.Sprintf("%v")` renders it.
- **Formatters.** `Format` and `FormatSQL` are methods with the source's loop. Each is proved equal to `Formatted` / `FormattedSQL`. Both of those are built on one recursive specification, `Substitute`. The properties of the formatters are then proved about `Substitute`: left-to-right order, text copied verbatim, values never rescanned, extra values ignored, and leftover placeholders kept.
- **`LogMgr`.** It is a class whose methods update its fields in place.
- **Handler chain.** A map from name to `Handler`, where `Handler` is `Console | File | Custom(name)`.
- **Handler effects.** Handlers do no I/O. Each returns the `Effect` it would have: printed text, text appended to a file, or delivery to a user handler.
- **Inputs.** The file system is a `Disk` value: the paths that exist, and the paths where opening the log file fails, with the error text. The following are parameters of `Logf`:
  - the caller's frame (or its absence);
  - the time text;
  - the stack frames below the call;
  - the disk.
- **Map order.** Go visits a map in an unspecified order. `Logf` therefore picks the next key arbitrarily and reports the order it used. Its contract holds for every order: each handler of the chain runs exactly once. `FormatParam` takes the visiting order as a parameter for the same reason.

## Model

| member | source | states |
|---|---|---|
| GoStrings.Index | strkit/strkit.go:229 | `strings.Index`: -1, or an index at which the whole pattern fits in the string |
| GoStrings.IndexSpec | strkit/strkit.go:229 | a non-negative result is an occurrence with no occurrence before it; -1 means there is no occurrence anywhere |
| GoStrings.IndexAfter | strkit/strkit.go:229 | when the text before an occurrence holds no earlier occurrence, Index finds exactly that one |
| GoStrings.IndexMissingChar | strkit/strkit.go:229 | a string without the pattern's first character has no occurrence (-1) |
| GoStrings.Split | strkit/strkit.go:184 | `strings.Split` with one separator: at least one piece, and no piece holds the separator |
| GoStrings.JoinSplit | strkit/strkit.go:184 | joining the pieces of Split with the separator gives the original string back |
| GoStrings.SplitJoin | strkit/strkit.go:184 | splitting a join of separator-free pieces gives those pieces back |
| GoStrings.SplitConcat | strkit/strkit.go:184 | a separator splits a string into the pieces of its two sides |
| GoStrings.TrimLeft | strkit/strkit.go:160 | the result is a suffix of the input, everything cut is the cut character, and it does not start with that character |
| GoStrings.TrimRight | strkit/strkit.go:160 | the result is a prefix of the input, everything cut is the cut character, and it does not end with that character |
| GoStrings.Trim | strkit/strkit.go:160 | `strings.Trim` with one cut character: no longer than the input, neither starts nor ends with the cut character, unchanged when the character is absent, empty when the input is all that character |
| GoStrings.ReplaceFirst | strkit/strkit.go:212 | `strings.Replace(s, pat, rep, 1)`: unchanged when `pat` is absent; otherwise the text before the first occurrence, `rep`, and the text after it |
| GoStrings.ReplaceFirstAt | strkit/strkit.go:212 | `strings.Replace(s, pat, rep, 1)` replaces the first occurrence and keeps the text on both sides |
| GoStrings.ReplaceFirstMissing | strkit/strkit.go:212 | a string without the pattern's first character is unchanged |
| Strconv.Digits | logkit/loghandle.go:67 | at least one digit, only digits, no leading zero, and "0" for zero |
| Strconv.Itoa | logkit/loghandle.go:67 | `strconv.Itoa`: non-empty, only digits and '-', and starts with '-' exactly for negative numbers |
| Strconv.ReadItoa | logkit/loghandle.go:67 | reading back the text Itoa writes gives the original integer |
| Strconv.ItoaInjective | logkit/loghandle.go:67 | different integers are written differently |
| StrKit.IsLower | strkit/strkit.go:35-37 | an ASCII lowercase letter is never uppercase, and the code 32 below it is an uppercase letter |
| StrKit.IsUpper | strkit/strkit.go:38-40 | the code 32 above an ASCII uppercase letter is a lowercase letter |
| StrKit.IsEmpty | strkit/strkit.go:53-55 | true exactly for the empty string |
| StrKit.IsNotEmpty | strkit/strkit.go:65-67 | true exactly for a non-empty string |
| StrKit.DefaultIfEmpty | strkit/strkit.go:57-63 | the default for an empty string, the string itself otherwise |
| StrKit.ContainsEmpty | strkit/strkit.go:73-78 | the early-return scan finds an empty string exactly when one exists |
| StrKit.IsAnyEmpty | strkit/strkit.go:69-80 | true for an empty list, and otherwise exactly when some string is empty |
| StrKit.IsNoneEmpty | strkit/strkit.go:82-84 | true exactly when the list is non-empty and every string is non-empty |
| StrKit.IsBlank | strkit/strkit.go:86-97 | true exactly when every character is a space, including the empty string |
| StrKit.IsNotBlank | strkit/strkit.go:107-109 | true exactly when some character is not a space |
| StrKit.DefaultIfBlank | strkit/strkit.go:99-105 | the default for a blank string, the string itself otherwise |
| StrKit.ContainsBlank | strkit/strkit.go:115-121 | the early-return scan finds a blank string exactly when one exists |
| StrKit.IsAnyBlank | strkit/strkit.go:111-122 | true for an empty list, and otherwise exactly when some string is blank |
| StrKit.IsNoneBlank | strkit/strkit.go:124-126 | true exactly when the list is non-empty and no string is blank |
| StrKit.BlankExamples | strkit/strkit.go:86-97 | a tab or a newline is not blank, spaces and "" are; empty lists count as "any empty/blank" |
| StrKit.FirstCharToUpper | strkit/strkit.go:136-145 | same length, only byte 0 can change; a lowercase byte 0 goes down by 32 to uppercase, anything else stays |
| StrKit.FirstCharToLower | strkit/strkit.go:147-156 | same length, only byte 0 can change; an uppercase byte 0 goes up by 32 to lowercase, anything else stays |
| StrKit.FirstCharCaseRoundTrip | strkit/strkit.go:136-156 | lower-casing undoes upper-casing of a lowercase first byte, and the other way round |
| StrKit.FirstCharAppend | strkit/strkit.go:136-156 | changing the case of byte 0 of `x + y` leaves `y` as it is |
| StrKit.ToUpperCamel | strkit/strkit.go:183-198 | the loop returns UpperCamel: the non-blank `_`-segments in order, each with its first byte upper-cased |
| StrKit.ToLowerCamel | strkit/strkit.go:158-181 | the loop returns LowerCamel: trims `_` at both ends, lower-cases segment 0, upper-cases later segments, skips blank ones |
| StrKit.UpperCamelOfNoSep | strkit/strkit.go:183-198 | separator-free segments give separator-free output |
| StrKit.LowerCamelOfNoSep | strkit/strkit.go:158-181 | separator-free segments give separator-free output |
| StrKit.CamelHasNoUnderscore | strkit/strkit.go:158-198 | neither camel-case result contains `_` |
| StrKit.UpperKeepsNonBlank | strkit/strkit.go:190-193 | upper-casing a non-blank segment keeps it non-blank |
| StrKit.UpperCamelOfShape | strkit/strkit.go:183-198 | the upper-camel result is empty, or non-blank and not starting with a lowercase letter |
| StrKit.UpperCamelIdempotent | strkit/strkit.go:183-198 | applying ToUpperCamel to its own result changes nothing |
| StrKit.CamelIgnoresTrailingSeps | strkit/strkit.go:160 | trailing underscores add only blank segments, so both camel forms ignore them |
| StrKit.LowerCamelOfUpper | strkit/strkit.go:158-198 | when segment 0 is not blank, the lower-camel result is the upper-camel result with byte 0 lower-cased |
| StrKit.LowerCamelFromUpper | strkit/strkit.go:158-198 | `ToLowerCamel(s)` is `FirstCharToLower(ToUpperCamel(s))` when the first segment of `s` is not blank |
| StrKit.FillSlice | strkit/strkit.go:200-206 | `length` copies of the fill string, and an empty slice for a length of 0 or less |
| StrKit.FormatParam | strkit/strkit.go:209-215 | the loop applies one first-occurrence replacement of `{key}` per key, in the visiting order |
| StrKit.ParamsApplied | strkit/strkit.go:211-213 | the keys' first-occurrence replacements, applied one after another in the visiting order (see FormatParamTwoKeys) |
| StrKit.ParamsWithoutBrace | strkit/strkit.go:209-215 | a template without `{` comes back unchanged, whatever the map |
| StrKit.FormatParamTwoKeys | strkit/strkit.go:208-215 | in the shape of the example at line 208, visiting `k1` then `k2`, both keys are replaced by their values and the text around them is kept |
| StrKit.FormatParamTwoKeysReversed | strkit/strkit.go:208-215 | the same example visited in the other order, `k2` then `k1`, gives the same text when the keys hold no braces |
| StrKit.BraceNotBefore | strkit/strkit.go:212 | `{k2}` does not occur inside `t1 {k1} t2` when the texts hold no `{` and the keys no braces |
| StrKit.Render | strkit/strkit.go:234-247 | Format's type switch: an int reads back as its own value in decimal, a string is written as it is |
| StrKit.SqlRender | strkit/strkit.go:270-288 | FormatSQL's type switch: ints and floats as in Format, strings and times as in Format but in single quotes, other types not at all |
| StrKit.SubstituteAdvance | strkit/strkit.go:228-250 | one turn of the loop: the text before the placeholder and the next value move to the output; the search resumes after the placeholder |
| StrKit.SubstituteDone | strkit/strkit.go:229-232 | when the values run out or no placeholder is left, the rest is copied unchanged |
| StrKit.Format | strkit/strkit.go:217-253 | the loop returns Formatted: the template unchanged when blank, with a blank placeholder or without args; otherwise the left-to-right substitution of the rendered args |
| StrKit.FormatSQL | strkit/strkit.go:255-293 | the loop returns FormattedSQL: the same with `?`, strings and times in single quotes, other types written as nothing |
| StrKit.FormatUnchanged | strkit/strkit.go:219-221 | a blank template, a blank placeholder or no args give the template back |
| StrKit.SubstituteStep | strkit/strkit.go:229-249 | a template starting with text free of the placeholder, then the placeholder, yields that text, the first value, and the substitution of the remainder |
| StrKit.SubstituteNoPlaceholder | strkit/strkit.go:229-232 | a template without the placeholder is returned as it is, whatever the values |
| StrKit.SubstituteSegments | strkit/strkit.go:226-251 | for `t0 ph t1 ph … tn`, the i-th value replaces the i-th placeholder and the texts are copied verbatim; values are inserted without rescanning; extra values are ignored; extra placeholders stay |
| StrKit.SegmentsHead | strkit/strkit.go:226-251 | the inductive step of SubstituteSegments: the first placeholder takes the first value |
| StrKit.FormatLeftToRight | strkit/strkit.go:217-253 | Format on `t0 ph t1 … tn` interleaves the texts with the first `min(args, n)` rendered args, and leaves the rest of the template as written |
| StrKit.FormatSQLLeftToRight | strkit/strkit.go:255-293 | FormatSQL on `t0 ? t1 … tn` interleaves the texts with the first `min(params, n)` SQL-rendered params |
| StrKit.FormatFewerArgsExample | strkit/strkit.go:229-232 | `"{} {}"` with the single arg 5 gives `"5 {}"` |
| LogLevel.LevelStr | logkit/logger.go:91-107 | the name is empty exactly for a level outside TRACE..ERROR |
| LogLevel.LevelOf | logkit/logger.go:91-107 | the reverse reading of a level name: only levels TRACE..ERROR come out |
| LogLevel.LevelStrRoundTrip | logkit/logger.go:91-107 | each named level reads back to itself; any other level has no name to read back |
| LogLevel.LevelOfRoundTrip | logkit/logger.go:91-107 | every name that reads as a level is that level's name |
| LogLevel.LevelStrInjective | logkit/logger.go:91-107 | two levels with the same non-empty name are equal |
| LogHandle.Name | logkit/loghandle.go:31-33 | the console handler is named "console" and the file handler "file" (lines 90-92), and the built-in handlers tell each other apart by name; a user handler has its own name |
| LogHandle.ColorOf | logkit/loghandle.go:39-47 | 31 exactly for ERROR, 33 exactly for WARN, 0 exactly for every other level |
| LogHandle.ConsoleTextShape | logkit/loghandle.go:52-54 | `consoleOut`'s text: it starts with ESC `[`, ends with ESC `[0m` and a newline, and is 8 characters longer than the colour number and the message together |
| LogHandle.ConsoleTextInjective | logkit/loghandle.go:52-54 | the colour and the message can be recovered from the printed text |
| LogHandle.FormatLog | logkit/loghandle.go:56-84 | the builder returns LogLine: optional prefix and space, `[LEVEL] time file:line : message`, then for ERROR one `\n   file:line` per frame |
| LogHandle.AppendStack | logkit/loghandle.go:71-81 | the frame loop appends exactly StackText of the frames, each frame after a newline in caller order |
| LogHandle.LogLinePrefix | logkit/loghandle.go:58-62 | the line starts with `prefix + " "` exactly when the prefix is not blank, and with `[` otherwise; the rest does not depend on the prefix |
| LogHandle.HeadHasNoNewline | logkit/loghandle.go:62-69 | the head line has no newline when its parts have none |
| LogHandle.FrameTextOneLine | logkit/loghandle.go:78 | a frame line has no newline when its file name has none |
| LogHandle.StackLines | logkit/loghandle.go:71-81 | splitting at newlines gives the head, then one line per frame in order |
| LogHandle.LogLineLines | logkit/loghandle.go:56-84 | an ERROR entry is the head line plus one line per frame; any other entry is the head line alone |
| LogHandle.ConsoleOutcome | logkit/loghandle.go:35-50 | the console handler prints and does nothing else |
| LogHandle.FileWarning | logkit/loghandle.go:98-116 | the three warning texts: empty path, missing path, open error with its message |
| LogHandle.FileOutcome | logkit/loghandle.go:94-119 | appends `"\n"` + the line to logkit.log exactly when the path is not blank, exists and opens; otherwise prints the yellow warning |
| LogHandle.FileWarningsDistinct | logkit/loghandle.go:98-116 | the warnings for a blank path, a missing path and a path that fails to open are pairwise different |
| LogHandle.ConsoleHandle | logkit/loghandle.go:35-50 | the handler's steps give ConsoleOutcome |
| LogHandle.FileHandle | logkit/loghandle.go:94-119 | the handler's early returns give FileOutcome |
| LogHandle.HandleRecord | logkit/logger.go:150 | `handler.Handle(record)` has the outcome of that kind of handler |
| LogKit.BuiltIn | logkit/logger.go:67-71 | `Handle` can create a handler only for "file", and that handler is named "file" |
| LogKit.Register | logkit/logger.go:83-85 | one registration adds the handler's name to the keys, keeps every old entry, and stores the handler only under a new name |
| LogKit.RegisterAll | logkit/logger.go:82-86 | the handlers registered one after another, in order (see RegisterAllKeys, RegisterAllKeeps, RegisterAllFirstWins) |
| LogKit.RegisterAllKeys | logkit/logger.go:80-89 | after registration the keys are the old keys plus the new handlers' names, and nothing else |
| LogKit.RegisterAllKeeps | logkit/logger.go:82-86 | every entry present before is still present with the same handler |
| LogKit.RegisterAllFirstWins | logkit/logger.go:82-86 | a new name holds the first handler of the call with that name |
| LogKit.RegisterAllValid | logkit/logger.go:80-89 | every handler stays registered under its own name |
| LogKit.RegisterAllIdempotent | logkit/logger.go:80-89 | registering the same handlers again changes nothing |
| LogKit.MakeRecord | logkit/logger.go:132-147 | the record holds the level, the time and `Format(msg, "{}", args)`; with no caller, file "???" and line 0 |
| LogKit.LogMgr.Default | logkit/logger.go:39-44 | the default manager: threshold INFO, empty store path and prefix, only the console handler under "console" |
| LogKit.LogMgr.SetLevel | logkit/logger.go:50-53 | sets the level only, and returns the same manager |
| LogKit.LogMgr.StorePath | logkit/logger.go:55-58 | sets the store path only, and returns the same manager |
| LogKit.LogMgr.SetPrefix | logkit/logger.go:60-63 | sets the prefix only, and returns the same manager |
| LogKit.LogMgr.Handle | logkit/logger.go:65-78 | adds the file handler when the name is "file" and not yet taken; "console" and unknown names change nothing |
| LogKit.LogMgr.AddHandler | logkit/logger.go:80-89 | the chain becomes RegisterAll of the old chain and the handlers, in order; the other fields are unchanged |
| LogKit.LogMgr.Logf | logkit/logger.go:129-154 | a record is built exactly when `level <= threshold`; then every handler runs exactly once, with its outcome; otherwise nothing runs; on a valid chain each visited key names its handler |
| LogKit.Dispatch | logkit/logger.go:149-151 | the loop over the chain visits every key exactly once, in some order, and records each handler's outcome |
| LogKit.Outcomes | logkit/logger.go:149-151 | the outcomes of the handlers under a list of keys, position by position |
| LogKit.Admits | logkit/logger.go:131 | the gate as written: a level passes when it is at most the threshold (see the three lemmas below) |
| LogKit.ErrorAdmitsAll | logkit/logger.go:131 | threshold ERROR lets every named level through |
| LogKit.TraceAdmitsOnlyTrace | logkit/logger.go:131 | threshold TRACE lets only TRACE through |
| LogKit.DefaultAdmits | logkit/logger.go:131 | the default threshold INFO lets TRACE, DEBUG and INFO through, and not WARN or ERROR |

## Left out

- Regular-expression validators (`MatchString`, `IsDigit` … `IsVersionNo`): thin wrappers over Go's `regexp` package.
- Random strings and captchas (`init`, `GetRandom*`, `GetRandPrefix`, `GetCaptcha*`): nondeterministic library calls.
- `FormatDistance`, and the rendering of `float64`, `time.Time` and `%v` arguments. These are library formatting; such arguments arrive as pre-rendered text (`Float`, `Time`, `Other`).
- `FormatTime`: the time is an input string.
- `At` and `ToBytes`. `At`'s inverted guard makes it panic for every index, and `ToBytes` is a plain conversion.
- UTF-8: one character stands for one byte. `IsBlank` ranges over runes in Go, which gives the same answer for the space test.
- StrKit.FirstCharToUpper and StrKit.FirstCharToLower require a non-empty string. The source indexes byte 0 and panics on "".
- StrKit.FormatParam: Go's map order is a parameter. The model does not say which orders Go may choose. The two-key example is proved for both orders, under different conditions.
- StrKit.FormatParamTwoKeys requires the first value to hold no `{`, because the second replacement searches the text the first one produced.
- StrKit.FormatParamTwoKeysReversed requires the keys to hold no braces, so the second key's first occurrence is the one written after the first key.
- StrKit.FormatSQL writes a quoted value as three separate builder writes. The model writes it as one string, which gives the same text.
- `runtime.Caller` and the stack walk in `formatLog`: the caller's frame and the frames below it are inputs.
- Mutexes in the handlers: the model is sequential.
- I/O (`fmt.Printf`, `os.Stat`, `os.OpenFile`, file writes): each becomes an `Effect`, and the file system becomes a `Disk`.
- `path.Join` cleaning of the store path: the directory and the file name are kept apart in `AppendFile`.
- The `handleFlag` field of `LogMgr`: the source never reads or writes it.
- `Log()` and the `Trace` … `Error` wrappers: each passes its arguments to `logf` unchanged.
- LogKit.LogMgr.Logf runs on the manager it is called on. The source always uses the global default manager.
- The record's pointer to its manager: the handlers receive the manager's prefix and store path instead.
- A user handler's own `Handle` code: the model records only that the record was delivered to it.
- A `LogMgr` with a nil handler map, and a nil handler passed to `AddHandler`: both make the source panic, and the model has no nil values.
- `mian.go`: a demonstration program with no logic of its own.
