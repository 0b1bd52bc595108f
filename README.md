# yeoman-wordpress: the deterministic rules of the generator

This project models, in Dafny, the small exact rules under the plumbing of
a Yeoman scaffolding generator for WordPress themes, and proves what they
promise:

- **Version resolution with fallback** (`getVersion`, `getBootstrapVersion`,
  `getFAVersion`). The outcome of `git ls-remote --tags … | tail -n 1` is an
  error or stdout text. The first match of `\d\.\d[\.\d]*` is the version.
  An error or no match gives the step's constant: `3.5.1`, `2.3.1` or `3.0.2`.
- **Remembered defaults** (`config.js` and the `getConfig` step). The config
  file is one cell holding an optional record `{authorName, authorURI, theme}`.
  Loading overlays the stored fields with `||`. The config "exists" only when
  all three fields are non-empty. `createConfig` fills empty fields with
  defaults, creates the directory (ignoring the outcome), then writes.
- **`askFor`**. It copies the defaults and versions into the answers. It
  completes the starter-theme URL with `tarball/master`. It keeps the raw
  theme name and stores it with spaces removed and lower-cased. It writes
  the config only when none exists.
- **The `bootstrap.less` patch**. Only the first `sprites.less` becomes
  `font-awesome.less`.
- **`cleanMe`** (the `clean` sub-generator). A loop over the directory
  listing removes every directory whose real path does not contain
  `node_modules`, and collects the non-directory entries' paths into
  `cfiles`. A `node_modules` directory is neither removed nor collected.

Module layout: `Wrappers` (Option, Result), `JsString` (the JavaScript
string built-ins used: `indexOf`, `replace`, `toLowerCase`, `||`),
`Versions`, `Config` (config.js), `Generator` (app/index.js) and `Clean`
(clean/index.js). The generator instance is the class
`Generator.Generator`. Its step methods assign its fields, as the JavaScript
methods assign properties of `this`. The config file is the class
`Config.ConfigStore`.

Four details of the code shape what the model proves:

- The version pattern is `\d\.\d[\.\d]*`. It allows one leading digit,
  so `10.2` resolves to `0.2` (`Versions.OneLeadingDigit`).
- The starter-theme URL is completed by appending `tarball/master` after a
  trailing `/`, and `/tarball/master` otherwise. A URL that already contains
  `tarball/` is left as it was.
- A config file counts as existing when all three of its fields are
  non-empty. A file with an empty field is rewritten by the next run, with
  its non-empty fields kept and the empty ones filled with defaults
  (`Generator.PartialConfigIsRepaired`).
- The tarball test `/[.]*tarball\/[.]*/` uses `[.]`, a literal dot that may
  occur zero times, so the test holds exactly when the URL contains
  `tarball/`.

Inputs that come from I/O are parameters of the model:

- the `exec` outcome (`Versions.CommandResult`);
- the prompt answer or its error;
- whether `fs.writeFile` succeeds;
- the directory listing (`Clean.Entry` pairs of real path and is-directory).

## Model

| member | source | states |
|---|---|---|
| `Versions.ResolveVersion` | app/index.js:58-91 | an error or no `d.d` head gives exactly the fallback; otherwise the result is the pattern's leftmost maximal match; a non-empty fallback means a non-empty version |
| `Versions.MatchVersion` | app/index.js:73-77 | `exec` returns null exactly when no position starts with digit, dot, digit; otherwise its result is a match in the sense of `IsVersionMatch` (leftmost head, digits and dots only, greedy tail) |
| `Versions.MatchVersionCharacterized` | app/index.js:73-77 | both directions: `exec` returns `v` iff `v` is a leftmost, maximal digit-and-dot match in the text |
| `Versions.VersionMatchUnique` | app/index.js:73-74 | a text has at most one match: position and extent are fixed by leftmost choice and the greedy `[\.\d]*` |
| `Versions.FindHead` | app/index.js:73-74 | scanning finds the leftmost position where digit, dot, digit starts, or reports there is none |
| `Versions.RunEnd` | app/index.js:73 | the greedy `[\.\d]*` run ends at the end of the text or at the first other character |
| `Versions.ResolvedVersionIsDigitsAndDots` | app/index.js:73-82 | a resolved version is the fallback or at least three characters, all digits and dots |
| `Versions.OneLeadingDigit` | app/index.js:73 | stdout `10.2` resolves to `0.2` |
| `Versions.TagLineExample` | app/index.js:68-77 | on an `ls-remote` line `ab12<TAB>refs/tags/3.5.1`, the tag `3.5.1` is found and the hash is skipped |
| `Generator.Generator.GetVersion` | app/index.js:58-92 | `latestVersion` becomes the resolved WordPress version with fallback `3.5.1`; no other field changes |
| `Generator.Generator.GetBootstrapVersion` | app/index.js:95-129 | `latestBootstrapVersion` becomes the resolved version with fallback `2.3.1`; no other field changes |
| `Generator.Generator.GetFAVersion` | app/index.js:132-166 | `latestFAVersion` becomes the resolved version with fallback `3.0.2`; no other field changes |
| `Generator.Generator.LookUpVersions` | app/index.js:58-166 | after the three lookups in order, `VersionsResolved` holds: each latest version is its lookup resolved with its own fallback |
| `Generator.Generator.constructor` | app/index.js:17-21 | a fresh instance has empty versions and defaults and no config |
| `Generator.LoadDefaults` | app/index.js:169-191 | a read error gives `''`, `''`, the starter-theme URL and "no config"; otherwise the stored author fields, the stored theme unless empty; "exists" iff all three stored fields are non-empty; the theme default is never empty |
| `Generator.Generator.GetConfig` | app/index.js:169-191 | the four default fields become exactly `LoadDefaults` of what the store reports |
| `Generator.PersistDecision` | app/index.js:280-291 | `createConfig` is called iff the prompt succeeded and the config does not exist, with the default author name, author URI and the starter-theme URL without the tarball suffix |
| `Generator.ConfigAfterAsk` | app/index.js:280-291 | the file changes only when the prompt and the write succeed and no config exists, and then it holds a complete record |
| `Generator.ConfigAfterRun` | app/index.js:169-293 | over `getConfig` then `askFor`, the file changes only when the prompt and the write succeed, and then it holds a complete record |
| `Generator.AskOutcomeFor` | app/index.js:265-291 | the step aborts exactly when the prompt fails, writes exactly when `PersistDecision` says so, and a write reports success exactly when it succeeded |
| `Generator.CompleteThemeUrl` | app/index.js:209-220 | a URL containing `tarball/` is unchanged; otherwise `tarball/master` is appended after a trailing `/`, else `/tarball/master`; the URL is a prefix of the result and the result always contains `tarball/` |
| `Generator.CompleteThemeUrlIdempotent` | app/index.js:209-220 | completing a completed URL changes nothing |
| `Generator.Generator.CompleteBoilerplate` | app/index.js:209-220 | the in-place completion of `themeBoilerplate` yields the completed URL |
| `Generator.NormalizeThemeName` | app/index.js:270 | `replace(/\ /g, '').toLowerCase()`: the result is no longer than the name and holds no space and no upper-case ASCII letter |
| `Generator.NormalizeThemeNameChar` | app/index.js:270 | one character: a space normalises to nothing and any other character to its lower-case form |
| `Generator.NormalizeThemeNameAppend` | app/index.js:270 | a concatenation normalises part by part; with the one-character case, the result is the name's non-space characters, lowered, in order |
| `Generator.NormalizeThemeNameIdempotent` | app/index.js:270 | normalising a normalised name changes nothing |
| `Generator.NormalizeWithoutSpaces` | app/index.js:270 | a name without spaces normalises to its character-by-character lowering |
| `Generator.NormalizeAroundSpace` | app/index.js:270 | a space between two parts disappears and the parts are normalised on their own |
| `Generator.NormalizeMyTheme` | app/index.js:270 | `My Theme` becomes `mytheme` |
| `Generator.NormalizeMyThemeParts` | app/index.js:270 | `My` + space + `Theme` becomes `mytheme` |
| `Generator.NormalizeAlreadyLower` | app/index.js:270 | `Already-Lower` becomes `already-lower`: no space to drop, only letters lowered |
| `Generator.Generator.PrepareAnswers` | app/index.js:197-207 | both theme names start as `mytheme`; the original URL and `themeBoilerplate` are the default theme URL; author fields and the three versions are copied from the defaults and the latest versions |
| `Generator.Generator.OnPrompt` | app/index.js:265-292 | on a prompt error the theme names keep their values and the run aborts; otherwise `themeNameOriginal` keeps the raw answer and `themeName` is its normalisation; the config is written from the copied answers exactly when it does not exist; whether the answers are the copied ones does not change |
| `Generator.Generator.AskFor` | app/index.js:193-293 | the complete `askFor`: `AnswersCopied` holds (the completed URL included), the theme names are `mytheme` on a prompt error and the answer and its normalisation otherwise, the file is `ConfigAfterAsk`, the config directory exists iff it did or a write was due, and the outcome is `AskOutcomeFor` the loaded defaults |
| `Generator.Generator.RunUntilPrompt` | app/index.js:58-293 | after the five steps in order: the versions are resolved (`VersionsResolved`) and non-empty, the defaults are `LoadDefaults` of the old file, `AnswersCopied` holds, the theme names follow the prompt, the file is `ConfigAfterRun` of the old file, the directory exists iff it did or a write was due, and the outcome is `AskOutcomeFor` the loaded defaults |
| `Generator.CompleteConfigNeverRewritten` | app/index.js:184-186 | a stored config whose fields are all non-empty is never rewritten by a run |
| `Generator.SuccessfulRunLeavesCompleteConfig` | config.js:33-40 | after a run whose prompt and write succeed, the file holds a complete record and the next load sees the config as existing |
| `Generator.SecondRunNeverWrites` | app/index.js:281-291 | after a successful first run, a second run finds the config, decides not to persist, and leaves the file unchanged |
| `Generator.FirstRunWritesDefaults` | config.js:33-37 | with no config file, the first run writes `theREDspace`, `http://www.redspace.com` and the starter-theme URL |
| `Generator.PartialConfigIsRepaired` | app/index.js:180-186 | a config with an empty field is rewritten: non-empty stored fields are kept and empty ones get the defaults |
| `Generator.PatchBootstrapLess` | app/index.js:428 | text without `sprites.less` is unchanged; otherwise the result is five characters longer, the length `font-awesome.less` adds over `sprites.less` |
| `Generator.TwoRuns` | app/index.js:169-293 | two runs on one store starting without a config: the first writes the defaults; the second never calls `createConfig`, keeping the config when its prompt succeeds and aborting otherwise; the file holds the defaults afterwards |
| `Generator.PatchWithoutSpritesIsIdentity` | app/index.js:428 | text without `sprites.less` is written back unchanged |
| `Generator.PatchReplacesFirstOnly` | app/index.js:428 | the text before the first `sprites.less` is kept, `font-awesome.less` takes its place, and a later `sprites.less` is still there |
| `Config.BuildRecord` | config.js:33-37 | every field of the record is non-empty; each is the supplied value when non-empty, else `theREDspace`, `http://www.redspace.com`, `https://github.com/theREDspace/wp_starter`; the theme comes from `themeUrl` |
| `Config.BuildRecordKeepsComplete` | config.js:34-36 | building from a complete record's own fields gives that record back |
| `Config.ReadFile` | config.js:17-25 | reading succeeds exactly when the file is present and then yields its record; otherwise an error and no data |
| `Config.ConfigStore.GetConfig` | config.js:17-25 | `getConfig` reports what `ReadFile` says of the current file |
| `Config.ConfigStore.Mkdir` | config.js:39 | afterwards the directory exists, and the result says whether it existed before |
| `Config.ConfigStore.CreateConfig` | config.js:32-42 | the directory exists afterwards; a successful write stores exactly `BuildRecord(values)`; a failed write, taken to fail before touching the file, leaves it and reports the error |
| `Config.SaveThenLoad` | config.js:17-42 | `getConfig` after a successful `createConfig` yields exactly the saved record, which is complete |
| `JsString.IndexOfFrom` | clean/index.js:37 | `indexOf` from a start inside the text or at its end: the leftmost occurrence at or after the start, or none at all; the call at clean/index.js:37 is `IndexOf`, which starts at 0 |
| `JsString.Contains` | app/index.js:210 | a pattern is contained iff it occurs at some position |
| `JsString.ContainsAt` | app/index.js:210 | an occurrence at a position makes the pattern contained |
| `JsString.ReplaceFirst` | app/index.js:428 | `replace` with a string pattern and a `$`-free replacement: unchanged without an occurrence; otherwise exactly the leftmost occurrence is replaced |
| `JsString.RemoveSpaces` | app/index.js:270 | the result has no U+0020 space, is no longer, and equals a space-free input |
| `JsString.RemoveSpacesChar` | app/index.js:270 | one character: a space is dropped, any other character kept |
| `JsString.RemoveSpacesAppend` | app/index.js:270 | removal distributes over concatenation, so the non-space characters are kept in order |
| `JsString.ToLowerAscii` | app/index.js:270 | same length, each character lowered |
| `JsString.ToLowerAsciiKeepsLower` | app/index.js:270 | lowering text without upper-case letters changes nothing |
| `JsString.ToLowerAsciiAppend` | app/index.js:270 | lowering distributes over concatenation |
| `Clean.CleanMe` | clean/index.js:29-44 | an undefined listing removes and collects nothing; otherwise the removed directories and `cfiles` are exactly `RemovedPaths` and `FilePaths` of the listing |
| `Clean.RemovedPaths` | clean/index.js:36-39 | the removed paths are at most as many as the entries and none contains `node_modules` |
| `Clean.FilePaths` | clean/index.js:40-42 | `cfiles` has at most one path per entry |
| `Clean.RemovedPathsMembers` | clean/index.js:36-39 | a path is removed iff some listed directory has it and it does not contain `node_modules` |
| `Clean.FilePathsMembers` | clean/index.js:40-42 | a path is in `cfiles` iff some listed non-directory has it |
| `Clean.ProtectedNeverRemoved` | clean/index.js:36-37 | a real path containing `node_modules` is never removed |
| `Clean.FileNeverRemoved` | clean/index.js:36-42 | when entries with the same real path agree on being a directory, a non-directory entry's path is never removed |
| `Clean.EntriesPartitioned` | clean/index.js:32-43 | each entry is exactly one of: collected file, removed directory, kept `node_modules` directory |
| `Clean.FilePathsAppend` | clean/index.js:32-43 | `cfiles` is built in listing order: a split listing collects each part in turn |

## Left out

- The Yeoman step runner, `this.async()` callbacks and the order in which prototype methods run: these belong to a foreign library. `RunUntilPrompt` writes the order of the first five steps out explicitly.
- The `exec` of `git ls-remote … | tail -n 1`: process and network work. Only the mapping from its outcome to a version is modelled. A synchronous throw caught by `try/catch` is folded into `CommandResult.Errored`, since it leads to the same fallback.
- The prompt library: the parameter is the answer the library delivers, with its default already substituted. Its error leads to `emit('error')`, which the model records as `Aborted`.
- JSON: the config file holds a record of three strings. `JSON.stringify`/`JSON.parse` are taken as a lossless round trip. The empty string stands for a missing key. JSON values that are not strings, and `JSON.parse` throwing on a malformed file, are not modelled.
- Generator.Generator.constructor: the JavaScript properties start undefined; the model starts them as empty strings and `false`.
- Tarball downloads (`createBootstrap`, `createFontAwesome`, `createLessElements`), the `automaton` mkdir/mv/rm task lists, `rimraf`, `fs.realpathSync` and `fs.statSync`: I/O wrappers. In `cleanMe` an entry is already a pair of real path and is-directory, and a removal is a path in the returned `removed` sequence.
- The `throw err` on a failed read of `bootstrap.less` (app/index.js:425) and the missing `cb()` when `automaton` fails (app/index.js:457-459): both stall or crash the run. The patch is modelled as a function on the file's text.
- `cleanMe`'s `cleanTask` (clean/index.js:46-56): it is built but never run, and `cleanMe` never calls `cb`, so the step never signals completion. Only the loop is modelled.
- Templates and copies (`createYeomanFiles`, `style.less`, `configureGrunt`), the logger and every log line.
- All commented-out code: `createDatabase`, `createApp`, `createTheme`, `convertFiles`, and the extra prompts.
- JsString.ToLowerAscii: lowers ASCII `A`-`Z` only; JavaScript's Unicode case mapping is not modelled.
- Config.ConfigStore.Mkdir: assumes `fs.mkdir` succeeds or finds the directory already there; a failing `mkdir` (permissions, a missing parent), whose error config.js:39 ignores before the write, is not modelled.
- Config.ConfigStore.CreateConfig: a failed `fs.writeFile` is modelled as leaving the file as it was; a write that fails after its truncating open, leaving an empty or partial file that the next `JSON.parse` rejects, is not modelled. Generator.ConfigAfterAsk and Generator.ConfigAfterRun rest on the same choice when they say the file changes only on a successful write.
- JsString.ReplaceFirst: inserts the replacement literally; the `$&`, `$$`, `` $` `` and `$'` patterns of JavaScript's `replace` are not expanded, which matters nowhere here since the one replacement, `font-awesome.less`, holds no `$`.
