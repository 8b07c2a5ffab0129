# fivem-utility, modelled in Dafny

fivem-utility is a command-line helper for FiveM game servers. This project
models its core and proves properties of it:

- **The `.cfg` loader** (`src/config.rs`):
  - the line tokenizer `config_line_split`, which splits on spaces and treats
    double quotes as grouping marks that are dropped;
  - the recursive loader `parse_file`, which normalises CR to LF, skips `#`
    lines, dispatches on the first token and recurses on `exec` into the same
    `FivemConfig`;
  - the entry point `read_config_file`;
  - the rcon-password and licence-key masking of `print_nicely`.
- **Resource scanning** (`src/main.rs`): `detect_resources`, which flattens
  bracketed group directories, and the `resource-usage` classification into
  FOUND, MISSING and EXTRA.
- **Artifact listing** (`src/artifacts.rs`): the first-occurrence
  deduplication and URL building of `get_artifacts`.

Layout, one module per file:

| file | module | models |
|---|---|---|
| `numbers.dfy` | `Numbers` | Rust's `str::parse::<u16>` (an optional `+`, ASCII digits, at most 65535) |
| `tokenizer.dfy` | `Tokenizer` | `config_line_split`, as a loop and as the function `Tokens` |
| `config.dfy` | `Config` | the record, the dispatcher and the loader as functions (`Dispatch`, `Load`, `LoadLines`, `ApplyLine`), and the class `FivemConfig` whose methods mutate it in place, each proved equal to those functions |
| `config_properties.dfy` | `ConfigProperties` | what the loader guarantees: sequencing, first failure stops, last write wins, append-only resources, line endings, the nesting bound |
| `masking.dfy` | `Masking` | the secret masking |
| `resources.dfy` | `Resources` | `detect_resources` over a directory tree, and the `resource-usage` loop |
| `artifacts.dfy` | `Artifacts` | the capture loop of `get_artifacts` |

The file system is a map from path to contents. `exec` nesting is bounded by
a `depth` parameter. When the bound is reached the result is the panic
outcome `IncludeTooDeep`. This stands for the stack overflow that a cyclic
`exec` chain causes in the program, which has no cycle guard. The other
panics are outcomes too, not preconditions:
- an `expect` on open or read (`OpenFailed`);
- indexing a missing argument (`IndexOutOfBounds`, with the index and length
  Rust would report).

Some behaviours of the loader worth knowing:
- Only `start` appends a resource. Any other first token, `ensure` included,
  that is not one of the recognised keywords is ignored.
- A recognised directive with a missing argument panics on the unchecked
  `parts[1]` or `parts[2]`.
- `set K` or `setr K` without a value panics on `parts[2]`.

## Model

| member | source | states |
|---|---|---|
| Numbers.ParseDecimal | src/config.rs:214 | every 16-bit value is parsed back from its decimal text, with or without a leading `+` and with any number of leading zeros |
| Numbers.ParseIgnoresLeadingZeros | src/artifacts.rs:28 | a digit string with zeros in front parses exactly as it does without them |
| Numbers.ParseRejectsOverflow | src/config.rs:214-219 | a decimal number of 65536 or more is refused, so `sv_maxclients` with it is an error |
| Numbers.ParseRejectsEmpty | src/config.rs:214-219 | a text with no digit after the optional `+` (`""` or `"+"`) is refused |
| Numbers.ParseRejectsNonDigits | src/config.rs:214-219 | any character other than a digit after the optional `+` makes the parse fail |
| Tokenizer.ConfigLineSplit | src/config.rs:147-170 | the character loop computes exactly `Tokens(line)`, and every token is non-empty and free of `"` |
| Tokenizer.FlagIsQuoteParity | src/config.rs:152-154 | after any prefix of a line, the scanner is inside a quoted span exactly when it has read an odd number of quotes |
| Tokenizer.ScanIsClean | src/config.rs:152-163 | after any prefix, the pending token holds no quote and every emitted token is non-empty and holds no quote |
| Tokenizer.ScanSpellsKept | src/config.rs:152-163 | after any prefix, the emitted tokens followed by the pending one spell the kept characters of that prefix |
| Tokenizer.TokensAreClean | src/config.rs:153-167 | no token is empty and no token holds a double quote |
| Tokenizer.TokensSpellKept | src/config.rs:150-167 | the tokens concatenated in order are the line with every `"` removed and every space outside a quoted span removed; an unterminated quote is no error |
| Tokenizer.BlankLineHasNoTokens | src/config.rs:155-167 | an empty or all-space line gives no tokens |
| Tokenizer.TokenizeUnsplit | src/config.rs:147-170 | non-empty quote-free tokens written out all bare (without spaces) or all double-quoted, separated by spaces, tokenize back to themselves |
| Tokenizer.RequoteIsStable | src/config.rs:147-170 | quoting every token of any line and tokenizing again gives the same tokens |
| Tokenizer.RejoinIsStable | src/config.rs:147-170 | rejoining space-free tokens with single spaces and tokenizing again gives the same tokens |
| Config.Normalized | src/config.rs:179 | every carriage return becomes a line feed and nothing else changes |
| Config.FivemConfig.constructor | src/config.rs:234-244 | the new record holds the defaults: empty strings and collections, script hook allowed, 0 max clients |
| Config.FivemConfig.Apply | src/config.rs:193-219 | one non-`exec` directive changes the record and returns the status exactly as `Dispatch` says, panicking on a missing argument |
| Config.FivemConfig.ParseFile | src/config.rs:173-229 | the line loop, recursing on `exec` into the same record, ends with the status and record `Load` gives |
| Config.ReadConfigFile | src/config.rs:233-253 | the result is `ReadConfig`: the record loaded from the defaults exactly when the load succeeds, the error otherwise |
| ConfigProperties.LoadLinesAppend | src/config.rs:183-226 | loading `a + b` loads `a`, then `b` from the record `a` left, unless `a` failed |
| ConfigProperties.FirstFailureStops | src/config.rs:218-224 | the first line that does not succeed ends the whole load with its own status, and the lines after it are never run |
| ConfigProperties.BadMaxClientsAborts | src/config.rs:213-219 | `sv_maxclients` with an argument that is not a `u16` ends the load with `Max clients is not a number!` and the record as it was |
| ConfigProperties.GoodMaxClientsSets | src/config.rs:213-216 | `sv_maxclients` with a `u16` argument sets `max_clients` to it and changes nothing else |
| ConfigProperties.ExecRunsChildFirst | src/config.rs:220-224 | `exec F` loads all of `F` into the same record before the next line, and a failure of `F` is returned unchanged |
| ConfigProperties.IgnoredLineHasNoEffect | src/config.rs:184-191 | a `#` line or a line of spaces changes nothing |
| ConfigProperties.UnknownKeywordHasNoEffect | src/config.rs:193-225 | a line whose first token is not a known keyword changes nothing |
| ConfigProperties.LoadKeepsResources | src/config.rs:195-196 | whatever happens, even a failure part-way, the resource list only grows at its end |
| ConfigProperties.LoadLinesKeepResources | src/config.rs:183-226 | a run of lines, whatever its outcome, only appends to the resource list |
| ConfigProperties.ApplyLineKeepsResources | src/config.rs:184-225 | one line, `exec` included and whatever its outcome, only appends to the resource list |
| ConfigProperties.StartStep | src/config.rs:195-196 | a successful non-`exec` line appends its `start` argument, if it has one, and nothing else |
| ConfigProperties.StartAppendsInOrder | src/config.rs:183-196 | a successful `exec`-free file appends exactly its `start` arguments, in file order, repeats included |
| ConfigProperties.DirectiveAssigns | src/config.rs:193-219 | a successful directive leaves its setting with the value it gives: the argument, or for `sv_scriptHookAllowed` true exactly when the argument is `1` |
| ConfigProperties.DispatchKeeps | src/config.rs:193-219 | a directive for another setting, or `set`/`setr` of another key or the other map, leaves a setting as it was |
| ConfigProperties.OtherLinesKeep | src/config.rs:183-219 | a successful line that is neither a directive for a setting nor an `exec` leaves it as it was |
| ConfigProperties.UntouchedLinesKeep | src/config.rs:183-219 | a successful run of such lines leaves the setting as it was |
| ConfigProperties.LoadKeepsSetting | src/config.rs:173-229 | a file that never assigns a setting, counting every file it includes, leaves that setting as it was, whatever the outcome |
| ConfigProperties.LoadLinesKeepSetting | src/config.rs:183-226 | a run of lines none of which assigns a setting, through `exec`, leaves it as it was, whatever the outcome |
| ConfigProperties.ApplyLineKeepsSetting | src/config.rs:184-225 | one such line, an `exec` included, leaves the setting as it was, whatever the outcome |
| ConfigProperties.DispatchFailureKeeps | src/config.rs:193-219 | a directive that panics or returns an error leaves the record as it was |
| ConfigProperties.LastDirectiveWins | src/config.rs:183-224 | after a successful load, a setting holds the value of its last directive; the lines after it may `exec` other files as long as none of them, at any nesting, assigns the setting again |
| ConfigProperties.CutPlain | src/config.rs:180 | text without a line feed only extends the last, unfinished line |
| ConfigProperties.CutJoin | src/config.rs:180 | lines joined with line feeds cut back into all but the last as finished lines and the last as the open one |
| ConfigProperties.SplitJoin | src/config.rs:180 | splitting lines joined with line feeds gives the lines back |
| ConfigProperties.NormalizedCR | src/config.rs:179 | a CR-separated text normalises to the LF-separated one |
| ConfigProperties.NormalizedCRLF | src/config.rs:179 | a CRLF-separated text normalises to the LF-separated one with an empty line after every line but the last |
| ConfigProperties.EmptyLinesAddNothing | src/config.rs:179 | the extra empty lines that CRLF leaves change nothing |
| ConfigProperties.LineEndingsAgree | src/config.rs:178-191 | a file loads the same whether its lines end in LF, CRLF or CR |
| ConfigProperties.LoadDepthMonotone | src/config.rs:220-221 | a load that did not reach the nesting bound gives the same outcome under any larger bound |
| ConfigProperties.LoadLinesDepthMonotone | src/config.rs:183-226 | a run of lines that did not reach the nesting bound gives the same outcome under any larger bound |
| ConfigProperties.ReadConfigOutcome | src/config.rs:246-252 | `read_config_file` returns the record exactly when the load succeeds, the loader's error unchanged otherwise, and never a partial record |
| Masking.MaskSecret | src/config.rs:71-95 | the masked text has the secret's length; under 8 characters it is all stars, otherwise stars followed by the secret's last 4 characters |
| Masking.MaskShowsOnlyLengthAndTail | src/config.rs:71-95 | two secrets mask alike exactly when they have the same length and, from 8 characters on, the same last 4 characters |
| Resources.DetectResources | src/main.rs:26-49 | the keys are exactly the names the scan can register, and each maps to the path of a directory of that name |
| Resources.OnlyPlainDirectoriesRegistered | src/main.rs:33-44 | a registered name is that of a directory entry the scan visits (never a file, never something inside a plain directory), is never bracketed, and its path ends in `/name` |
| Resources.FileEntriesIgnored | src/main.rs:33 | renaming a file entry leaves what the scan registers unchanged: files play no part |
| Resources.PlainDirectoryRegisteredAsIs | src/main.rs:42-44 | a directory without brackets is registered under its name and path, and its contents play no part |
| Resources.GroupContentsMerged | src/main.rs:36-41 | everything a bracketed group registers is registered by its parent |
| Resources.ClassifyResources | src/main.rs:100-110 | each declared name, in order, is FOUND with its scanned path exactly when it is scanned and not declared before, else MISSING; EXTRA is the scanned map without the declared names |
| Resources.FoundAndExtraPartitionScan | src/main.rs:100-110 | the FOUND names and the EXTRA names partition the scanned names |
| Resources.RepeatIsMissing | src/main.rs:102 | a name declared twice is MISSING the second time |
| Artifacts.GetArtifacts | src/artifacts.rs:20-42 | a failed fetch gives an empty list; otherwise the loop computes `CollectFrom` from the first match with nothing listed, so it panics exactly when some digit run is not a `u16` and else lists `Dedupe` of the matches |
| Artifacts.CollectIsDedupe | src/artifacts.rs:27-38 | running the loop over a page panics exactly when some digit run does not fit in a `u16`, and otherwise lists `Dedupe` of the matches |
| Artifacts.LastIsFirstIff | src/artifacts.rs:29 | the `nums_already` test lets a match through exactly when it is the first on the page with its number |
| Artifacts.ListedNumsOccur | src/artifacts.rs:29-33 | every listed build number is the number of some match on the page |
| Artifacts.FirstsIncrease | src/artifacts.rs:27 | the first occurrences are indices of matches in increasing page order |
| Artifacts.FirstsAreFirstOccurrences | src/artifacts.rs:27-30 | `Firsts` lists exactly the matches that are the first with their number, in increasing order |
| Artifacts.DedupeIsFirstOccurrences | src/artifacts.rs:27-36 | the list has one artifact per first occurrence of a number, in page order, with URL `base + digits + "-" + hex + "/"` from the raw digit text and hash the hex |
| Artifacts.DedupeDistinct | src/artifacts.rs:25-30 | the listed build numbers are pairwise distinct |
| Artifacts.DedupeCoversAll | src/artifacts.rs:27-36 | every build number on the page is listed |
| Artifacts.MatchFitsIffSmall | src/artifacts.rs:23-28 | a digit run the pattern matches parses exactly when its value is below 65536 |
| Artifacts.ZeroPaddedRepeatDropped | src/artifacts.rs:28-32 | `007-…` after `7-…` is the same build and is dropped; the URL keeps the first spelling |

## Left out

- File I/O: files are a map from path to contents. A failed open or read is the `OpenFailed` panic outcome. A read that fails on invalid UTF-8 is not distinguished from a missing file.
- Stack exhaustion on a cyclic `exec`: the `depth` bound turns it into the `IncludeTooDeep` outcome. `LoadDepthMonotone` shows that the bound changes nothing for loads that do not reach it.
- Config.FivemConfig.ParseFile: stops with `IncludeTooDeep` where the program would keep recursing until the stack overflows.
- `read_dir` order: the entry order of the tree stands for it. It decides which path wins when two groups hold the same name, so `DetectResources` only promises that the path is one of the candidates.
- Resources.DetectResources: requires the scanned root to be a directory. The program panics on `read_dir(...).unwrap()` otherwise, and entry, metadata and non-UTF-8 name failures panic too; none of these is modelled.
- Resources.EntryPath: a path is `dir + "/" + name`. The special cases of `PathBuf::join` (an absolute name, an empty or slash-ended directory) and symbolic links are not modelled.
- Terminal output: colours, the hostname `^N` colour rendering and its panic, the tree printing of convars and resources, and the order of `HashMap` keys.
- The command line (`clap`), the subcommand dispatch and the exit codes in `main`. The `verify` subcommand only calls `read_config_file` and reports its result. The `print` subcommand calls `read_config_file`, panics when the load fails, and otherwise prints the record with `print_nicely`, whose secret masking is modelled in `Masking`.
- HTTP and the regular expression: `get_artifacts` takes the list of matches, or `None` for a failed request or body read. The regex's `\d` is taken as ASCII digits. A non-ASCII Unicode digit would match there and then make `parse` panic, which the model does not capture.
- Artifacts.Dedupe: a match whose number does not fit is passed over. The program never reaches the matches after one, as it panics there, and `CollectIsDedupe` only relates the two when every number fits.
- Masking.MaskSecret: characters stand for bytes (ASCII secrets). The program slices by byte, so a non-ASCII secret may be masked differently or panic at a character boundary.

