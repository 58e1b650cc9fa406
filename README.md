# monobrew core in Dafny

monobrew provisions a machine from configuration files. It reads one or
more configuration texts and splices in `include-config` references. It then
parses the text line by line into operations (`new-op` blocks that hold a
shell script, a `halt-if-fail` flag and `var` variables). The operations run
in order: each one is numbered, executed, and its output, exit code and JSON
record are written as files into a state directory. A separate scan of
`/etc/issue` records the Debian or Ubuntu release in the variable store.

The project models the five core files of `pkg/monobrew`:

- `configuration.dfy` (module `Configuration`): the operation record
  `Block`, which is a value, and `Config`, which is a class with the Go
  struct's fields. It also holds the variable-store accessors.
- `text.dfy` (`Text`), `line_syntax.dfy` (`LineSyntax`): the Go string and
  regexp behaviour the parser relies on. The five line patterns are written
  as predicates over one line, with round-trip lemmas.
- `parser_spec.dfy` (`ParserSpec`), `parser_lemmas.dfy` (`ParserLemmas`):
  `ParseConfig` as a state machine over one line at a time, and what it
  guarantees.
- `parser.dfy` (`Parsing`): the `Parser` class itself, updated in place. Each
  method is proved to move it exactly as the state machine does.
  `ExpandConfigs` runs its two loops against the reference in
  `inclusion.dfy` (`Inclusion`).
- `process.dfy` (`Process`): `ExecuteOp` and `ExecuteCommand`. The
  subprocess, `exec.LookPath` and the clock are the fields of an `Env`.
- `runner.dfy` (`Running`): the `Runner` class with `RunOps`, `DumpState`,
  `ScanEtcIssue`, `Scan` and `UpdateStatus`. `RunOps` is proved against the
  loop reference `RunFrom`, and `ScanEtcIssue` against `ScannedStatus`.
- `scanner.dfy` (`Scanning`): the `/etc/issue` checks in source order, and a
  last-write-wins reference for them.
- `maybe.dfy` (`Maybe`): `Option` and `Result`.

Where the code's behaviour is surprising, the model follows the code:

- An indented `exec shell until END` line is split by `\s+` into
  `["", "exec", "shell", ...]`. Its mode field is therefore `shell`, and the
  block gets no script (`ParserLemmas.ExecShellModes`).
- A line that matches no directive is ignored, not reported as an error.
- `var NAME IS VALUE` matches the case-insensitive pattern, but the
  direction is compared case-sensitively, so nothing is set
  (`ParserLemmas.VarUpperIsIgnored`).
- `halt-if-fail` is recognised only unindented and in lower case
  (`ParserLemmas.IndentedHaltIgnored`).
- The scanner's quirks are kept as written, each stated by a lemma:
  - Debian 13 sets `os.debian.12`;
  - Ubuntu 21.04 and 21.10 record the versions `2104` and `2110`;
  - Ubuntu 22.10 records `22.14`.

Gaps in the sources:

- The Go `Config` struct has no `ConfigExpanded` field, although `parser.go`
  writes one. The model gives `Config` that field.
- `SetStatusKey` and `GetStatusKey` are not defined in the sources. They are
  modelled as a map insert and a map lookup that yields `""` for a missing
  key.

A Go panic becomes an `Err` result: a nil `currentBlock`, an unreadable
file or URL, or include expansion that runs too deep. `cleanExit` after a
failing `halt-if-fail` operation becomes the `Halted` run end. A failed
state-file write becomes `WriteFailed`.

## Model

| member | source | states |
|---|---|---|
| Configuration.EmptyBlock | pkg/monobrew/parser.go:200 | a fresh block carries only its label, is untouched and has every result field at its zero value |
| Configuration.CmdBlock | pkg/monobrew/config.go:95-98 | a command block runs its script with `sh -sex`, is not yet run and is not marked touched |
| Configuration.Lookup | pkg/monobrew/parser.go:142 | reading a variable yields its stored value, or `""` when it is missing |
| Configuration.LookupAfterSet | pkg/monobrew/parser.go:110 | a write affects only its own key, and the last write to a key wins |
| Configuration.Config.constructor | pkg/monobrew/config.go:53-62 | a new configuration has the default state directory `/var/tmp/monobrew`, no blocks, no variables and verbose output off |
| Configuration.Config.OrderedOps | pkg/monobrew/config.go:64-66 | the operations come back in the order they were added |
| Configuration.Config.Load | pkg/monobrew/config.go:68-71 | exactly one `mkdir -p DIR; chmod 700 DIR` block for the current state directory is appended; nothing else changes |
| Configuration.Config.AddConfigFile | pkg/monobrew/config.go:86-88 | the file is appended to the list of configuration files; nothing else changes |
| Configuration.Config.AddCmdBlock | pkg/monobrew/config.go:90-93 | exactly one command block is appended; nothing else changes |
| Configuration.Config.GetStatusKey | pkg/monobrew/parser.go:142 | the stored value of the key, or `""` when the key is missing |
| Configuration.Config.SetStatusKey | pkg/monobrew/parser.go:178 | the key is inserted or overwritten; every other field is unchanged |
| Text.LowerString | pkg/monobrew/parser.go:132 | strings.ToLower on ASCII: same length, every character lower-cased |
| Text.SkipSpaces | pkg/monobrew/parser.go:22-26 | the `^\s*` step: only leading `\s` characters are dropped, and the rest starts with a non-space |
| Text.Token | pkg/monobrew/parser.go:24 | the `(\S+)` capture: the longest space-free prefix, ended by a space or the end of the line |
| Text.TrimRight | pkg/monobrew/parser.go:210 | exactly the trailing run of the cut character is dropped |
| Text.TrimLeftUnicode | pkg/monobrew/parser.go:288 | exactly the leading run of Unicode white space is dropped: a suffix of the text, starting with a non-space |
| Text.TrimRightUnicode | pkg/monobrew/parser.go:288 | exactly the trailing run of Unicode white space is dropped: a prefix of the text, ending with a non-space |
| Text.TrimSpace | pkg/monobrew/parser.go:288 | the result is a slice of the text with only white space before and after it, and it starts and ends with a non-space character |
| Text.TrimSpaceUnique | pkg/monobrew/parser.go:288 | two such slices of one text are equal, so the trimmed text is determined |
| Text.SplitFields | pkg/monobrew/parser.go:130 | `\s+` split with limit n yields between 1 and n fields |
| Text.SplitFieldsShape | pkg/monobrew/parser.go:130 | with limit 1 the whole line; otherwise the first field is the leading token, every field but the last is free of `\s`, the middle fields are nonempty, and the last is free of `\s` unless the limit was reached |
| Text.SplitFieldsCons | pkg/monobrew/parser.go:130 | a field, a run of `\s` and a rest starting with a non-space split as the field followed by the rest's fields |
| Text.SplitFieldsRoundTrip | pkg/monobrew/parser.go:130 | space-free fields joined by runs of `\s` split back into the same fields |
| Text.JoinSplit | pkg/monobrew/parser.go:296 | cutting a text into lines and joining them again gives the text back |
| Text.SplitJoin | pkg/monobrew/parser.go:296 | lines without newlines, joined and cut again, give the same lines |
| Text.ScanLines | pkg/monobrew/parser.go:49-55 | the lines bufio.ScanLines yields hold no newline, and the empty text yields none |
| Text.UnlinesJoin | pkg/monobrew/parser.go:49-55 | lines each followed by a newline are the lines joined with newlines and an empty last piece |
| Text.ScanLinesRoundTrip | pkg/monobrew/parser.go:49-55 | a text of whole lines without newlines or trailing carriage returns is scanned back into those lines |
| Text.ScanLinesRoundTripOpen | pkg/monobrew/parser.go:49-55 | the same when the last line, nonempty, has no newline after it |
| Text.DropCR | pkg/monobrew/parser.go:51 | exactly one trailing carriage return is removed when there is one; otherwise the line is kept |
| Text.Padded5 | pkg/monobrew/runner.go:50 | `%05d`: at least five digits that denote the counter |
| Text.DecimalRoundTrip | pkg/monobrew/runner.go:50 | the decimal digits of a counter read back as that counter |
| Text.IntRoundTrip | pkg/monobrew/runner.go:58 | the `%d` text of an exit code reads back as that exit code, negative ones included |
| LineSyntax.AfterKeyword | pkg/monobrew/parser.go:24-26 | a `kw\s+` match starts with the keyword in any case and leaves a shorter rest that does not start with a space |
| LineSyntax.NewOpLabel | pkg/monobrew/parser.go:24 | the name newOpRe captures is a nonempty token without spaces |
| LineSyntax.MatchVar | pkg/monobrew/parser.go:26 | a var match has a nonempty name and a nonempty value |
| LineSyntax.IncludePath | pkg/monobrew/parser.go:23 | the path includeRe captures is a nonempty token without spaces |
| LineSyntax.NewOpRoundTrip | pkg/monobrew/parser.go:24 | `new-op NAME` is read back as NAME |
| LineSyntax.IncludeRoundTrip | pkg/monobrew/parser.go:23 | `include-config PATH` is read back as PATH |
| LineSyntax.VarRoundTrip | pkg/monobrew/parser.go:26 | `var NAME is VALUE` is read back as its name, direction and value |
| LineSyntax.FoldEqLower | pkg/monobrew/parser.go:132-133 | against a lower-case keyword, case-insensitive equality is the same as ToLower equality |
| LineSyntax.ShellLineFields | pkg/monobrew/parser.go:125-132 | a line shellRe matches always splits into four fields, so `parts[2]` and `parts[3]` exist; the third field is the mode when the line is unindented and `shell` when it is indented |
| ParserSpec.Initial | pkg/monobrew/parser.go:42-44 | a new parser is at top level, with no capture and no current block |
| ParserSpec.NormalizeScript | pkg/monobrew/parser.go:208-211 | only trailing newlines are dropped; a script without exactly one newline is kept; the result ends in a newline only when the script had two or more |
| ParserSpec.EndingNewlineCounts | pkg/monobrew/parser.go:209 | a script ending in a newline holds at least one |
| ParserSpec.StoreBlock | pkg/monobrew/parser.go:203-218 | a touched block is appended, normalised, and replaced by an empty one; an untouched or nil block leaves the state unchanged; stored blocks are only ever extended |
| ParserSpec.StartBlock | pkg/monobrew/parser.go:195-201 | a touched previous block is appended, normalised, and an untouched or missing one appends nothing; a new untouched block with the label becomes current |
| ParserSpec.TopLevelLine | pkg/monobrew/parser.go:90-121 | a top-level line only appends well-stored blocks, and it either starts a var capture or stays out of one |
| ParserSpec.VarDirectiveLine | pkg/monobrew/parser.go:102-119 | a var line leaves blocks and the current block alone; it sets a variable, starts a capture, or does nothing |
| ParserSpec.BlockLine | pkg/monobrew/parser.go:123-156 | it fails exactly on an `exec shell` or `halt-if-fail` line with no current block; otherwise blocks and variables are unchanged |
| ParserSpec.ExecShell | pkg/monobrew/parser.go:125-147 | the block becomes a touched `sh -sex` operation; the parser either keeps its mode or starts a script capture |
| ParserSpec.ScriptLine | pkg/monobrew/parser.go:158-172 | it fails exactly on the end token with no block; otherwise it either appends the line or ends the capture |
| ParserSpec.VarCaptureLine | pkg/monobrew/parser.go:174-189 | blocks are untouched; it either appends the line or ends the capture in DefiningBlock |
| ParserLemmas.OneLineScript | pkg/monobrew/parser.go:208-211 | a one-line script is stored without its trailing newline |
| ParserLemmas.ManyLineScript | pkg/monobrew/parser.go:208-211 | a script of two or more lines is stored as captured |
| ParserLemmas.NormalizeIdempotent | pkg/monobrew/parser.go:208-211 | normalising a second time changes nothing |
| ParserLemmas.StoredIsWell | pkg/monobrew/parser.go:206-215 | every stored block is touched, and its script is normalised |
| ParserLemmas.StoreBlockTwice | pkg/monobrew/parser.go:199 | storing twice in a row stores once |
| ParserLemmas.ExtendsTrans | pkg/monobrew/parser.go:215 | appending blocks in two steps is appending blocks |
| ParserLemmas.StepExtends | pkg/monobrew/parser.go:53-190 | one line appends at most one block, and only a well-stored one |
| ParserLemmas.ParseLinesExtends | pkg/monobrew/parser.go:53-190 | stored blocks are never changed, removed or reordered, and every appended block is well stored |
| ParserLemmas.ParseTextOfLines | pkg/monobrew/parser.go:47-193 | parsing a text of whole lines is parsing those lines, then storing the current block |
| ParserLemmas.ParseTextExtends | pkg/monobrew/parser.go:47-193 | the same holds for a whole ParseConfig, final store included |
| ParserLemmas.StepKeepsWf | pkg/monobrew/parser.go:53-190 | one line keeps the invariant: a capture is in progress exactly in a capturing mode, and a script capture has a block |
| ParserLemmas.ParseLinesKeepsWf | pkg/monobrew/parser.go:53-190 | every sequence of lines keeps that invariant |
| ParserLemmas.NilBlockExactly | pkg/monobrew/parser.go:127-149 | under the invariant, a line fails exactly when it is an `exec shell` or `halt-if-fail` line reached in DefiningBlock with no current block |
| ParserLemmas.VarCaptureThenExecFails | pkg/monobrew/parser.go:174-183 | a top-level var capture ends in DefiningBlock with no block, so a following `exec shell` line panics |
| ParserLemmas.LeadingChar | pkg/monobrew/parser.go:22-26 | the first visible character of each kind of line (`#` or `/`, `n`, `v`, `e`) |
| ParserLemmas.CommentSkipped | pkg/monobrew/parser.go:76-79 | outside a capture, a comment line leaves the parser state unchanged |
| ParserLemmas.DirectiveIsNotComment | pkg/monobrew/parser.go:76-88 | a directive is never skipped as a comment |
| ParserLemmas.VarIsOnlyVar | pkg/monobrew/parser.go:92-102 | a var line is neither a new-op nor a state-dir line |
| ParserLemmas.ShellLineIsNotDirective | pkg/monobrew/parser.go:76-125 | an exec shell line is neither a comment nor a directive |
| ParserLemmas.ImplicitClose | pkg/monobrew/parser.go:84-88 | outside a capture, a directive first stores the current block and returns to top level |
| ParserLemmas.NewOpStep | pkg/monobrew/parser.go:92-95 | `new-op NAME` stores the previous block and starts an empty one labelled NAME |
| ParserLemmas.VarStep | pkg/monobrew/parser.go:102-119 | a var line stores the previous block, then sets or captures |
| ParserLemmas.VarIsSets | pkg/monobrew/parser.go:108-110 | `var NAME is VALUE` sets NAME to VALUE |
| ParserLemmas.VarUpperIsIgnored | pkg/monobrew/parser.go:108-118 | `var NAME IS VALUE` sets nothing |
| ParserLemmas.ExecShellStep | pkg/monobrew/parser.go:123-147 | an exec shell line in a block is handled by ExecShell |
| ParserLemmas.ExecShellModes | pkg/monobrew/parser.go:127-145 | `until` starts a script capture ended by the fourth field; `from` copies the variable into stdin; an indented line only marks the block |
| ParserLemmas.HaltIfFailStep | pkg/monobrew/parser.go:148-151 | `halt-if-fail` sets the flag and touches the block |
| ParserLemmas.IndentedHaltIgnored | pkg/monobrew/parser.go:148-155 | an indented `halt-if-fail` is an unknown line and is ignored |
| ParserLemmas.ParseLinesAppend | pkg/monobrew/parser.go:53-190 | parsing two runs of lines is parsing the first, then the second; an error in the first ends the parse |
| ParserLemmas.ScriptLines | pkg/monobrew/parser.go:167-170 | inside a script capture, every line except the end token is appended with a newline, comments and directives included |
| ParserLemmas.ScriptHereis | pkg/monobrew/parser.go:158-170 | a whole script hereis becomes the block's script and returns to DefiningBlock |
| ParserLemmas.UnterminatedScript | pkg/monobrew/parser.go:158-192 | a script capture still open at the end of the input is not stored as a script |
| ParserLemmas.VarLines | pkg/monobrew/parser.go:184-187 | inside a var capture, every line except the end token is appended with a newline |
| ParserLemmas.VarHereis | pkg/monobrew/parser.go:174-183 | a whole var hereis sets the variable to the captured lines and returns to DefiningBlock |
| Parsing.Parser.constructor | pkg/monobrew/parser.go:42-44 | the new parser is in the initial state over its configuration |
| Parsing.Parser.StoreBlock | pkg/monobrew/parser.go:203-218 | the fields change exactly as ParserSpec.StoreBlock says; the configuration's other fields are unchanged |
| Parsing.Parser.StartBlock | pkg/monobrew/parser.go:195-201 | the fields change exactly as ParserSpec.StartBlock says |
| Parsing.Parser.ProcessLine | pkg/monobrew/parser.go:53-190 | one loop body fails exactly when ParserSpec.Step fails, and otherwise moves to Step's state |
| Parsing.Parser.TopLevelLine | pkg/monobrew/parser.go:90-121 | the top-level branch moves to ParserSpec.TopLevelLine's state |
| Parsing.Parser.VarLine | pkg/monobrew/parser.go:102-119 | a var line moves to ParserSpec.VarDirectiveLine's state |
| Parsing.Parser.BlockLine | pkg/monobrew/parser.go:123-156 | the block branch fails exactly when ParserSpec.BlockLine fails, and otherwise moves to its state |
| Parsing.Parser.ExecShell | pkg/monobrew/parser.go:125-147 | an exec shell line moves to ParserSpec.ExecShell's state |
| Parsing.Parser.AppendConfigToExpanded | pkg/monobrew/parser.go:304-307 | the contents of the path are appended, or the path is reported unreadable; nothing else changes |
| Parsing.Parser.ExpandConfigs | pkg/monobrew/parser.go:265-302 | the expanded text is Inclusion.ExpandConfigs of the configuration files, or the method fails with its error |
| Parsing.Parser.ConcatenateConfigs | pkg/monobrew/parser.go:266-271 | the first loop leaves the contents of all files in order, or the first unreadable file's error |
| Parsing.Parser.ExpandIncludes | pkg/monobrew/parser.go:273-301 | the pass loop ends with Inclusion.Expand's result: a text without include lines, or an error |
| Parsing.Parser.ExpandPass | pkg/monobrew/parser.go:287-296 | one pass replaces the text by Inclusion.Pass's result |
| Parsing.Parser.ParseConfig | pkg/monobrew/parser.go:47-193 | the parse fails exactly when ParserSpec.ParseText fails, and otherwise leaves ParseText's state |
| Inclusion.GetConfigContents | pkg/monobrew/parser.go:220-229 | a path starting with `http://` or `https://` is fetched; any other path is read as a file; a missing one is reported unreadable |
| Inclusion.ReplaceLine | pkg/monobrew/parser.go:287-294 | a line that is not an include line is kept as it is |
| Inclusion.ReplaceAll | pkg/monobrew/parser.go:296 | a successful pass yields one replacement per line |
| Inclusion.ReplaceAllMeaning | pkg/monobrew/parser.go:296 | a pass succeeds exactly when every line's replacement succeeds; then line i is replaced by its replacement, and otherwise the first failure is reported |
| Inclusion.PassWithoutInclude | pkg/monobrew/parser.go:296 | a pass over text without include lines gives it back unchanged |
| Inclusion.NoIncludeLines | pkg/monobrew/parser.go:287-296 | lines that are not include lines are replaced by themselves |
| Inclusion.Unchanged | pkg/monobrew/parser.go:296 | lines the replacement keeps pass through unchanged |
| Inclusion.ExpandWithoutInclude | pkg/monobrew/parser.go:279-300 | text without include lines comes out of expansion unchanged after one pass |
| Inclusion.ExpandedHasNoInclude | pkg/monobrew/parser.go:298-300 | whatever expansion returns holds no include line |
| Inclusion.ExpandFailsWithPass | pkg/monobrew/parser.go:286-296 | a failing pass makes the whole expansion fail with its error |
| Inclusion.ExpandStep | pkg/monobrew/parser.go:279-300 | a pass that leaves an include line is followed by another pass |
| Inclusion.ExpandLast | pkg/monobrew/parser.go:298-300 | a pass that leaves no include line is the last one |
| Inclusion.ConcatenatedReadable | pkg/monobrew/parser.go:269-271 | when every file can be read, the result is their contents in order |
| Inclusion.ConcatenatedPrefixFails | pkg/monobrew/parser.go:269-271 | a failure among the first files is the failure of them all |
| Inclusion.ConcatenatedUnreadable | pkg/monobrew/parser.go:269-271 | the first unreadable file ends the concatenation with its error |
| Inclusion.TrimSpaceKeeps | pkg/monobrew/parser.go:288 | trimming a line without outer spaces keeps it |
| Inclusion.NotIncludeLine | pkg/monobrew/parser.go:23 | a line starting with neither a space nor `i` is not an include line |
| Inclusion.IncludeLineOneLine | pkg/monobrew/parser.go:23 | an include line written with a path is a single line |
| Inclusion.SelfIncludeReplaced | pkg/monobrew/parser.go:287-294 | a self-include is replaced by the marker followed by the self-include again |
| Inclusion.SelfIncludePass | pkg/monobrew/parser.go:287-296 | one pass over a text ending in the self-include gives the marker lines and the self-include |
| Inclusion.MarkerLinesPlain | pkg/monobrew/parser.go:291 | the marker lines hold no include line and no newline |
| Inclusion.SelfIncludeRemains | pkg/monobrew/parser.go:298 | a text ending in the self-include still has an include line |
| Inclusion.SelfIncludeNext | pkg/monobrew/parser.go:279-300 | each pass over a self-including text gives another such text |
| Inclusion.SelfIncludeTooDeep | pkg/monobrew/parser.go:279-284 | a self-including text always ends in the include-depth error |
| Inclusion.SelfIncludeFails | pkg/monobrew/parser.go:265-302 | a configuration file that includes itself makes ExpandConfigs fail as circular after 1000 passes |
| Process.ErrorText | pkg/monobrew/process.go:37-42 | the error string is the error's text when there is an error with nonempty text, and `""` otherwise |
| Process.ExecuteOp | pkg/monobrew/process.go:11-26 | the block equals Executed; it succeeded exactly when it had already succeeded or the exit code is 0; the empty-output flag is raised exactly by empty output |
| Process.SuccessRule | pkg/monobrew/process.go:23-25 | success is exit code 0 for a block not yet run, and a success is never undone |
| Process.EmptyOutputRule | pkg/monobrew/process.go:18-20 | the empty-output flag is set exactly when the output is empty or the flag was already set |
| Process.ExecutedFields | pkg/monobrew/process.go:12-22 | the path is the looked-up one; the times are the clock readings and their difference; the result fields are the command's; every other field is unchanged |
| Process.OneInvocation | pkg/monobrew/process.go:28-36 | the program runs with the looked-up path, argv `[path] + args` and the block's script as stdin, and nothing else matters |
| Process.LaunchFailure | pkg/monobrew/process.go:36-45 | a program that cannot start gives exit code -1 and empty output, and the operation does not newly succeed |
| Process.ErrorStringRule | pkg/monobrew/process.go:36-42 | the error string is nonempty exactly when the command reported an error with nonempty text |
| Running.DumpWrites | pkg/monobrew/runner.go:56-61 | DumpState writes three files |
| Running.DigitsBeforeDot | pkg/monobrew/runner.go:50 | digits followed by a dot after a shared prefix are fixed by the name |
| Running.StateFileNamesDistinct | pkg/monobrew/runner.go:50 | two equal state file names have the same counter, and the same suffix when the labels are equal |
| Running.Performed | pkg/monobrew/runner.go:51-52 | the writes up to the first failing one succeed, and that one fails |
| Running.Dump | pkg/monobrew/runner.go:48-62 | all three writes succeed and the output file is recorded in the block, or the first failing write is reported; the files written are a prefix of the three |
| Running.DumpOutcomes | pkg/monobrew/runner.go:51-61 | Dump ends at the first, second or third write, or with all three written |
| Running.RunOne | pkg/monobrew/runner.go:26-29 | a block that has run carries its number, keeps its label and flag, and had its three files written |
| Running.StepperKeeps | pkg/monobrew/runner.go:26-29 | the RunOps loop body numbers blocks and writes the DumpState files |
| Running.RunFrom | pkg/monobrew/runner.go:25-45 | the loop keeps the number of blocks, only adds files, and stops at or after its starting block |
| Running.RunFromStep | pkg/monobrew/runner.go:25-45 | one turn runs block i under the next number, then stops on a failed write or a halt, or goes on with block i + 1 |
| Running.WritesOfFrom | pkg/monobrew/runner.go:29 | the writes from block i on are block i's, then the rest |
| Running.WritesOfRange | pkg/monobrew/runner.go:29 | the writes of blocks i to k - 1 are block i's, then those of the others |
| Running.StateWritesCount | pkg/monobrew/runner.go:56-61 | DumpState writes three files per block |
| Running.Runner.constructor | pkg/monobrew/runner.go:15-17 | a new runner starts with counter 0 over its configuration |
| Running.Runner.WriteFile | pkg/monobrew/runner.go:51-52 | a write succeeds exactly when the file can be written, and only then is it recorded |
| Running.Runner.DumpState | pkg/monobrew/runner.go:48-62 | the result is Dump's, and exactly its files are appended |
| Running.Runner.UpdateStatus | pkg/monobrew/scanner.go:87-89 | the key is inserted or overwritten; every other field is unchanged |
| Running.Runner.RunCheck | pkg/monobrew/scanner.go:22-27 | one check makes its four writes exactly when its marker occurs |
| Running.Runner.ScanEtcIssue | pkg/monobrew/scanner.go:12-85 | the variable store becomes ScannedStatus of what `/etc/issue` holds; nothing else changes |
| Running.Runner.Scan | pkg/monobrew/scanner.go:8-10 | the same as ScanEtcIssue |
| Running.Runner.RunOps | pkg/monobrew/runner.go:19-46 | blocks, counter, files and how the run ended are exactly RunFrom's, starting from block 0 |
| Running.Runner.RunBlock | pkg/monobrew/runner.go:26-29 | the counter goes up by one; block i is replaced by the result of running it under the new number; its files are appended |
| Running.RunCounters | pkg/monobrew/runner.go:26-27 | the counter goes up by one per block run, and the j-th block run carries the counter value it was given |
| Running.RunKeepsPrefix | pkg/monobrew/runner.go:25 | blocks before the start are untouched |
| Running.RunKeepsSuffix | pkg/monobrew/runner.go:42-44 | blocks after the one the run stopped at never run |
| Running.RunKeepsLabels | pkg/monobrew/runner.go:25-29 | running never changes a block's label or its halt-if-fail flag |
| Running.RunHalts | pkg/monobrew/runner.go:42-44 | the run halts only at a failing halt-if-fail block, and every earlier block ran without halting |
| Running.RunWrites | pkg/monobrew/runner.go:25-29 | a completed run wrote each block's DumpState files, block after block, after the files written before it |
| Running.RunWritesHalted | pkg/monobrew/runner.go:42-44 | a halted run wrote the files of every block up to and including the halting one, and none after it |
| Running.RunWritesFailed | pkg/monobrew/runner.go:51-52 | a run whose write failed wrote the files of the earlier blocks, then a strict prefix of the failing block's files, and nothing after |
| Scanning.IssueText | pkg/monobrew/scanner.go:15-21 | a missing file gives no text, an unreadable one the empty text, and a readable one its contents |
| Scanning.ApplyChecksPrefix | pkg/monobrew/scanner.go:22-83 | the checks run one after another in source order |
| Scanning.CheckWrite | pkg/monobrew/scanner.go:22-27 | a matching check writes `"1"` to the apt, distribution and release keys, and its version to the version key |
| Scanning.LastWriteWins | pkg/monobrew/scanner.go:22-83 | a key a matching check writes holds the value of the last such check; any other key keeps its value |
| Scanning.KeysOnlyGrow | pkg/monobrew/scanner.go:87-89 | the scan adds or overwrites keys and never removes one |
| Scanning.NoMarkerUnchanged | pkg/monobrew/scanner.go:22-83 | a text containing no marker leaves the store as it was |
| Scanning.EmptyContainsNothing | pkg/monobrew/scanner.go:20-22 | the empty text contains no nonempty marker |
| Scanning.NothingToScan | pkg/monobrew/scanner.go:15-20 | a missing file, and a file that cannot be read, change nothing |
| Scanning.LastMatchDecides | pkg/monobrew/scanner.go:22-83 | a matching check with no later match writing the key decides its value |
| Scanning.NeverWritten | pkg/monobrew/scanner.go:22-83 | a key no check writes is never written |
| Scanning.Debian13Quirk | pkg/monobrew/scanner.go:22-27 | Debian 13, without a later Debian marker, sets `os.debian.12` and version `13` |
| Scanning.NoDebian13Key | pkg/monobrew/scanner.go:22-83 | no check writes an `os.debian.13` key |
| Scanning.Debian11Wins | pkg/monobrew/scanner.go:36-41 | the Debian 11 check comes last of the Debian checks, so its version wins |
| Scanning.Ubuntu2210Quirk | pkg/monobrew/scanner.go:78-83 | Ubuntu 22.10 records the version `22.14` and sets `os.ubuntu.2210` |
| Scanning.Ubuntu21Quirks | pkg/monobrew/scanner.go:57-69 | Ubuntu 21.10 and 21.04, without a later Ubuntu marker, record `2110` and `2104` |

## Left out

- Files, URLs and `/etc/issue` are inputs:
  - `Sources` maps each readable path and fetchable URL to its contents.
  - `IssueFile` says what reading `/etc/issue` gave.
  - An HTTP status other than 200 only prints a warning in the source, and is not modelled.
- The subprocess, `exec.LookPath` and the clock are the fields of `Env`. Per-operation worlds are passed in as `nat -> Env`.
- Whether a state file can be written is a predicate. The files written are recorded in order in `Runner.files`.
- The JSON encoding of a block (`MarshalJSON`, `json.MarshalIndent`) is the `marshal` parameter.
- Logging and printing are not modelled: `verbmsg` and `PrintDebug`, the verbose result printing of `RunOps`, and `WarnMsg`.
- `cmd/monobrew/main.go` (flag parsing), `InitEnv`, `Init` and `ParseFilepath` are not part of this model. They are file-system and command-line glue.
- `ParseConfig` takes the body already read into a string. `currentFile` and `currentLine` are not modelled, because the source never reads them.
- The `state-dir` directive is recognised and skipped, as in the source.
- Running.Runner.RunOps: `OpCounter` is a Go `uint`. The model uses an unbounded `nat`, so wrap-around after 2^64 operations is not modelled.
- `*Block` pointers are values: an updated block is written back into `Config.blocks` or `currentBlock`, so aliasing between them is not modelled.
- The `(?i)` flag is modelled as ASCII case folding, not full Unicode folding.
- LineSyntax.IncludePath: the multi-line include pattern is applied one line at a time. A match does not absorb the blank lines before the include line, and no newline is allowed between the keyword and the path.
- The `bufio.Scanner` 64 KiB token limit is not modelled: longer lines are returned whole.
- Go panics and `os.Exit` are results: `Err`, `Halted` and `WriteFailed`. Deferred cleanups and the process exit itself are outside the model.
- The Go `Config.Parser` back-pointer that `NewConfig` sets (`config.go:50,60`) has no counterpart. Only `Init` uses it, and `Init` is not part of this model.
- Scanning.IssueText: `os.ReadFile` can return partly read bytes together with an error. The model reads such a file as the empty text.
- The `DefiningStdin` state constant is declared but never entered, so it has no counterpart.
