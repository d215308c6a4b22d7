# r-synced core, modelled in Dafny

r-synced is a small desktop front-end for `rsync`. The user picks a source, a
destination and some check boxes, then presses "Run". The window first runs
a dry run with `--stats` and reads the number of regular files from its
statistics. It then starts the real transfer. A worker thread reads the
transfer's standard output, turns progress lines and file lines into
messages, and the window drains those messages on every frame.

This project models that core:

- `Progress` (progress.dfy): `parse_rsync_progress`. A hand-written matcher
  for the regular expression `^([\d.]+)\s+(\d+)%\s+([\d,]+\w+/\w+)\s+(\d{1,2}:\d{2}:\d{2})`
  returns the parse tree (`Layout`) of the trimmed line. The tree is then
  converted to the `RsyncProgress` record, with '.' removed from the byte
  count, the count read as a `u64` and the percentage read as a `u8`. The
  matcher is proved sound and complete against a declarative grammar
  (`WellFormed` and `Spelled`).
- `Commands` (commands.dfy): `create_rsync_command` and
  `create_rsync_dry_run_command`, as the program name plus its argument list.
- `Regex` (regex.dfy) and `Stats` (stats.dfy): `parse_rsync_stats`. It is a
  loop over the lines of the dry run's output that inserts into a map. The
  map is specified as an overlay of the entries each line inserts, so later
  lines overwrite earlier ones. Its two count patterns are sequences of
  pieces, matched leftmost-first the way `Regex::captures` matches.
- `Pump` (pump.dfy): the thread in `run_rsync` that reads standard output.
  It reads up to each '\r', decodes UTF-8, trims, splits into lines, sends
  `Progress` and `NextFile` messages, and sends `Finished` at the end. The
  output is a byte sequence and the channel is the sequence of messages
  sent.
- `App` (app.dfy): the `AppState` class with the message drain of `update`
  and the "Run" button. The checks the button makes on the dry run's output
  are the function `Decide`.
- `Text` (text.dfy) and `Utf8` (utf8.dfy): the parts of Rust's `str` that
  the core relies on: `trim`, `lines`, `split(" ").last()`, `replace`,
  `contains`, `parse::<u64>`/`parse::<u8>` and `str::from_utf8`.
- `Wrappers` (wrappers.dfy): `Option`.

Where the design notes of the program and its code differ, the model
follows the code:

- numbers use '.' as the grouping separator, not ',';
- a "Number of files" line without a link group stores "" under
  "Number of files (links)";
- standard error without "Permission denied" is logged and does not stop
  the run;
- `Finished` is sent when standard output ends, without waiting for the
  standard-error reader.

The f32 fractions `progress` and `total_progress` are kept exact, as
`Fraction(numerator, denominator)`: `Fraction(percentage, 100)` and
`Fraction(count, files_count)`.

The pump's specification and lemmas take the progress parser as a
parameter (`Pump.Parser`). `Pump.PumpStdout` instantiates it with
`Progress.ParseRsyncProgress`, so every lemma about `Messages` holds for
the real parser.

## Model

| member | source | states |
|---|---|---|
| Progress.BytesField | src/utils.rs:15 | `([\d.]+)\s+` at the start of the line ends inside the line, after at least one byte character |
| Progress.PercentField | src/utils.rs:15 | `(\d+)%\s+` ends inside the line, and the character at the end of the digits is '%' |
| Progress.SpeedField | src/utils.rs:15 | `([\d,]+\w+/\w+)\s+` is a non-empty span inside the line |
| Progress.MatchTime | src/utils.rs:15 | the text the time pattern covers is an `H:MM:SS` or `HH:MM:SS` token |
| Progress.MatchProgress | src/utils.rs:15-19 | the regular expression applied at the start of the trimmed line: the cut points the four field matchers find, as a `Layout`; it has no ensures of its own, and MatchProgressSound and MatchProgressComplete state that it finds a layout exactly when the line has one |
| Progress.MatchProgressSound | src/utils.rs:14-19 | whatever the matcher accepts is a well-formed layout (bytes, spaces, digits and '%', spaces, speed token, spaces, time, then any rest) that spells the line exactly |
| Progress.MatchProgressComplete | src/utils.rs:14-19 | every well-formed layout is accepted and recovered exactly, so the matcher misses no progress line and reads each one the one way the pattern allows |
| Progress.RemoveDotsLeavesDigits | src/utils.rs:20 | removing '.' from the bytes field leaves only decimal digits |
| Progress.Convert | src/utils.rs:20-31 | a layout gives a record exactly when the dot-stripped bytes field is non-empty and at most u64::MAX and the percentage is at most 255 (not clamped to 100); the record holds those two values and the speed and time texts unchanged |
| Progress.ParseRsyncProgress | src/utils.rs:12-32 | a parsed record always has a u64 byte count and a u8 percentage |
| Progress.ParseFromLayout | src/utils.rs:19-31 | a line whose trimmed text has a well-formed layout, with anything after the time, parses to the conversion of that layout |
| Progress.ParseNeedsLayout | src/utils.rs:19-31 | a record comes only from a line whose trimmed text has a well-formed layout, and it is that layout's conversion |
| Progress.ParseIgnoresSurroundingSpace | src/utils.rs:19 | whitespace around the line does not change the result |
| Commands.Spell | src/main.rs:73-101 | each chosen flag becomes exactly one argument, its spelling, in the same place |
| Commands.FlagsMeaning | src/main.rs:76-98 | the builder chooses "-a" iff archive; -r, -l, -p, -t, -g each iff asked for and archive is off; "-z" iff compress; in that order, none repeated |
| Commands.ArchiveChosen | src/main.rs:76-77 | "-a" is chosen iff archive mode is on |
| Commands.RecursiveChosen | src/main.rs:79-81 | "-r" is chosen iff archive is off and recursive is on |
| Commands.LinksChosen | src/main.rs:82-84 | "-l" is chosen iff archive is off and symlinks is on |
| Commands.PermsChosen | src/main.rs:85-87 | "-p" is chosen iff archive is off and permissions is on |
| Commands.TimesChosen | src/main.rs:88-90 | "-t" is chosen iff archive is off and time is on |
| Commands.GroupChosen | src/main.rs:91-93 | "-g" is chosen iff archive is off and group is on |
| Commands.CompressChosen | src/main.rs:96-98 | "-z" is chosen iff compress is on |
| Commands.ModeFlagsOrdered | src/main.rs:76-94 | the mode flags are in the builder's order and all come before "-z" |
| Commands.ChosenFlagsUnique | src/main.rs:76-98 | the check boxes determine the flag list completely: two lists that both meet the description are equal |
| Commands.CreateRsyncCommand | src/main.rs:70-104 | the program is rsync, with "-i" and "--progress" first and the source and destination last |
| Commands.CreateRsyncCommandFlags | src/main.rs:70-104 | the arguments between the fixed prefix and the endpoints are exactly the flags the check boxes ask for, as FlagsMeaning describes them |
| Commands.Framed | src/main.rs:73-74 | the argument list is "-i", "--progress", the flags, the source and the destination, in that order |
| Commands.ModeFlags | src/main.rs:76-94 | the flags the `if state.archive … else …` block pushes; no ensures of its own: ModeFlagsOrdered and the per-flag lemmas state what it holds |
| Commands.Flags | src/main.rs:76-98 | the mode flags, then "-z" when compress is on; no ensures of its own: FlagsMeaning states that it meets ChosenFlags |
| Commands.ChosenFlags | src/main.rs:76-98 | the description the flag list must meet: each flag present iff its check box asks for it (single flags only without archive), in the builder's order; ChosenFlagsUnique shows it fixes the list |
| Commands.CreateRsyncDryRunCommand | src/main.rs:106-118 | the dry run is exactly rsync -e "ssh -o PasswordAuthentication=no -o PreferredAuthentications=publickey" -an --stats src dest |
| Commands.DryRunMatchesTransfer | src/main.rs:106-118 | the dry run ignores the check boxes and names the same endpoints, in the same order, as the transfer |
| Text.Lines | src/main.rs:225 | `str::lines`: no line contains '\n', and there are no lines exactly when the text is empty; LinesLast, LinesCons and LinesJoin give the contents |
| Text.StripCR | src/main.rs:225 | a line that '\n' ends is the piece before the '\n', or that piece less one final '\r' |
| Text.LinesLast | src/main.rs:225 | text with no '\n' is a single line, kept whole, a final '\r' included |
| Text.LinesCons | src/main.rs:225 | the first line is the text before the first '\n' less one '\r' just before it, and the lines after it are the lines of the rest |
| Text.JoinLines | src/main.rs:225 | joining lines with '\n' after each ends with '\n' when there is any line |
| Text.LinesJoin | src/main.rs:225 | for text without '\r', the lines joined with '\n' after each give the text back, plus a '\n' when it did not end with one |
| Text.LastToken | src/main.rs:187-192 | `split(" ").last()`: the result is a suffix with no ' ' in it, and the whole text or preceded by ' ' |
| Text.RemoveChar | src/utils.rs:20 | `replace(c, "")`: the result has no `c` and is no longer than the text |
| Text.RemoveCharAppend | src/utils.rs:20 | `replace(c, "")` works piece by piece: removing from a concatenation concatenates the removals, so what remains keeps its order |
| Text.RemoveCharKeeps | src/utils.rs:20 | removing a character that is not there changes nothing |
| Text.ParseUnsigned | src/utils.rs:21-22 | `parse::<u64>` and `parse::<u8>`: a value exactly when the text is an optional '+' and at least one digit whose value fits, and then that value |
| Text.ParseU64 | src/main.rs:436 | `parse::<u64>()`: a parsed value is at most u64::MAX |
| Text.ParseU8 | src/utils.rs:22 | `parse::<u8>()`: a parsed value is at most 255 |
| Text.TrimIdempotent | src/utils.rs:19 | trimming twice is trimming once |
| Text.Trim | src/utils.rs:19 | `str::trim`: leading, then trailing whitespace removed; no ensures of its own: TrimSlice states the result is a slice with only whitespace around it and no whitespace at either end |
| Text.TrimSlice | src/utils.rs:19 | the trimmed text is a slice of the text with only whitespace around it, and it neither starts nor ends with whitespace |
| Text.Contains | src/main.rs:420 | `str::contains`: the needle occurs at some index of the text; a definition without ensures |
| Text.TrimEmptyIffBlank | src/main.rs:417 | the trimmed text is empty exactly when the text is all whitespace |
| Text.LastIndexOf | src/main.rs:222 | the last occurrence of a character from a position, or None exactly when there is none there; the greedy `(.*)\)` ends at it |
| Utf8.DecodeFirst | src/main.rs:157 | a decoded first character is a Unicode scalar value that takes exactly as many bytes as UTF-8 uses for it |
| Utf8.Decode | src/main.rs:157 | `str::from_utf8`: decoded text never has more characters than the bytes; DecodeEncode and EncodeDecode state that it inverts the encoding exactly |
| Utf8.DecodeEncode | src/main.rs:157 | `str::from_utf8` accepts the encoding of every string and gives the string back |
| Utf8.EncodeDecode | src/main.rs:157 | whatever `str::from_utf8` accepts is the encoding of what it returns, so decoding is injective |
| Utf8.DecodeAscii | src/main.rs:157 | bytes below 0x80 always decode, each to the character with that code |
| Stats.KeyValue | src/main.rs:216 | `^(.+?):\s*(.*)$` matches iff a ':' has at least one character before it; the key and value are the trimmed text before and after the first such ':' |
| Stats.KeyValueOf | src/main.rs:231-233 | a key with no ':' after its first character, then ':', then any text splits into the trimmed key and the trimmed text |
| Stats.Leftmost | src/main.rs:236 | a match captures as many groups as the pattern has |
| Stats.LeftmostIsFirst | src/main.rs:236 | `captures` finds the match that starts first, and finds none only when the pattern matches at no position |
| Stats.NumFilesWithoutLinks | src/main.rs:217-219 | `N (reg: R, dir: D)` in any spacing the pattern allows, followed by anything, captures N, R, D and "" for the links |
| Stats.NumFilesWithLinks | src/main.rs:217-219 | `N (reg: R, dir: D, link: L)` captures all four numbers |
| Stats.TotalSpeedupFound | src/main.rs:221-222 | a summary line captures the total size, the speedup and the run type up to the last ')' of the line |
| Regex.MatchAt | src/main.rs:217-222 | a pattern matched piece by piece at one index, each piece taking the text it covers; no ensures of its own: MatchSound and MatchComplete state that it finds the words that fit the pieces |
| Regex.MatchSound | src/main.rs:217-222 | a match returns words that fit the pieces and spell the text at the index |
| Regex.MatchComplete | src/main.rs:217-222 | words that fit a guarded pattern and spell the text at the index are what the match returns |
| Stats.CapturesAt | src/main.rs:217-222 | the groups a pattern captures at one index, with the link group tried before it is skipped; a match has as many groups as the pattern |
| Stats.SummaryEntries | src/main.rs:273-286 | the summary line's three entries, or none; never the key "Number of files" |
| Stats.TrimmedLineEntries | src/main.rs:226-286 | the entries of one trimmed line (key/value, count breakdown or summary); never the key "Number of files" |
| Stats.StatsOf | src/main.rs:225-287 | the map after the lines, each line's entries overwriting the earlier ones; no ensures of its own: StatsKeys and StatsLastWriter state which keys it holds and with which values |
| Stats.CountEntries | src/main.rs:236-269 | the count breakdown never stores "Number of files" itself |
| Stats.LineEntries | src/main.rs:225-286 | no line stores the key "Number of files" |
| Stats.StatsKeys | src/main.rs:225-286 | a key is in the map exactly when some line inserts it |
| Stats.StatsLastWriter | src/main.rs:225-286 | a key's value is the one the last line inserting that key gave it |
| Stats.StatsOfAppend | src/main.rs:225-287 | one more line overwrites the map with that line's entries |
| Stats.StatsNeverNumberOfFiles | src/main.rs:235-269 | "Number of files" is never a key of the result |
| Stats.KeyValueStored | src/main.rs:231-233 | a `key: value` line with any key but "Number of files" stores the trimmed value under the trimmed key, unless a later line inserts that key again |
| Stats.NumFilesStored | src/main.rs:235-269 | a "Number of files" line whose value has a count breakdown stores its four captured numbers under the four derived keys, unless a later line inserts one of them |
| Stats.NumFilesWithoutLinksStored | src/main.rs:235-269 | "Number of files: N (reg: R, dir: D)" stores N, R, D and "" for the links |
| Stats.NumFilesWithLinksStored | src/main.rs:235-269 | "Number of files: N (reg: R, dir: D, link: L)" stores N, R, D and L |
| Stats.UnmatchedLineKeepsStats | src/main.rs:273-286 | a line matching neither the key/value pattern nor the summary pattern leaves the map as it was |
| Stats.ParseRsyncStats | src/main.rs:212-290 | the map the loop builds is the overlay of the entries of the text's lines, in order |
| Stats.InsertLine | src/main.rs:226-286 | one non-blank trimmed line inserts exactly its entries |
| Stats.InsertCounts | src/main.rs:236-269 | a matched count breakdown inserts its four keys, and an unmatched one inserts nothing |
| Stats.InsertSummary | src/main.rs:273-286 | a matched summary line inserts size, speedup and run type |
| Pump.ChunkEnd | src/main.rs:152 | `read_until(b'\r')` always reads at least one byte and stays inside the output |
| Pump.ChunkEndShape | src/main.rs:152 | a read stops just after the first '\r', or at the end of the output |
| Pump.Chunks | src/main.rs:152-155 | the pieces `read_until` returns until it reads nothing; no ensures of its own: ChunksCoverOutput states that they cover the output |
| Pump.ChunksCoverOutput | src/main.rs:151-203 | the reads cover the output exactly, in order; each read is non-empty, holds '\r' only as its last byte, and every read but the last ends with '\r' |
| Pump.TrimAfterNewlines | src/main.rs:158 | stripping trailing '\r' and '\n' before `trim` changes nothing |
| Pump.TrimEndNewlines | src/main.rs:158 | `trim_end_matches(['\r', '\n'])`: the longest prefix that does not end with '\r' or '\n'; everything removed is '\r' or '\n' |
| Pump.ChunkLines | src/main.rs:157-159 | the lines of one read, none when it is not UTF-8; no line holds '\n' |
| Pump.FileCount | src/main.rs:183-185 | how many lines start with '>' or '<'; no ensures of its own: FileNamesCount ties it to the names sent and SendLine to the counter |
| Pump.LineMessages | src/main.rs:162-197 | a `Progress` when the line parses, then a `NextFile` when it is a file line; no ensures of its own: ProgressPartShape and LineMessagesNames state what it sends |
| Pump.Messages | src/main.rs:161-199 | the messages of the lines in order, each line's `Progress` counting the file lines before it; no ensures of its own: MessagesName, MessagesCountFiles and NoFinishedBeforeEnd state what it holds |
| Pump.ProgressPartShape | src/main.rs:162-181 | a line sends a `Progress` iff it parsed, and then exactly one, with `Fraction(percentage, 100)`, the parsed speed, time and bytes, and the number of file lines before it over the file count |
| Pump.LinesOf | src/main.rs:157-159 | the lines of one read: none when it is not UTF-8, else the lines of its trimmed text |
| Pump.SendLine | src/main.rs:162-197 | the messages one line sends, and the counter grows by exactly 1 for a line starting with '>' or '<' and is unchanged otherwise |
| Pump.SendLines | src/main.rs:161-199 | the messages the lines of one read send, carrying the file counter across them |
| Pump.Pump | src/main.rs:148-207 | the loop sends the messages of every line of the output, in order, then `Finished` |
| Pump.PumpStdout | src/main.rs:148-207 | the same, with the real progress parser |
| Pump.FileNamesCount | src/main.rs:183-185 | the counter equals the number of file names sent |
| Pump.LineMessagesNames | src/main.rs:183-197 | a line names a file iff it starts with '>' or '<', and the name is the text after its last ' ' |
| Pump.MessagesName | src/main.rs:183-197 | the `NextFile` messages, in order, carry the names of the file lines, in order |
| Pump.NoFinishedBeforeEnd | src/main.rs:205 | no line sends `Finished` |
| Pump.MessagesCountFiles | src/main.rs:171-177 | every `Progress` carries, over the file count, the number of `NextFile` messages sent before it |
| Pump.PumpStdoutMeaning | src/main.rs:148-207 | the pump ends with exactly one `Finished`, its file names are those of the file lines, the counter equals their number, and every `Progress` counts the files before it |
| App.DrainLogs | src/main.rs:298-303 | the drain appends to `logs` each non-empty file name followed by '\n', in order, and nothing else |
| App.DrainErrorLogs | src/main.rs:308-311 | the drain appends to `error_logs` each error line followed by '\n', in order, and nothing else |
| App.DrainFinished | src/main.rs:304-307 | after the drain the run is finished iff it was or a `Finished` arrived; the child is cleared iff a `Finished` arrived |
| App.DrainProgress | src/main.rs:297 | the progress shown is the last `Progress` received, or the old one when none arrived |
| App.DrainAppend | src/main.rs:294-313 | draining in two frames is draining once |
| App.PumpSendsNoErrors | src/main.rs:148-207 | the standard-output thread sends no `Error` message |
| App.PumpThenDrain | src/main.rs:294-313 | draining all the pump sent logs exactly the non-empty file names, leaves the error log alone, finishes the run and clears the child |
| App.Receive | src/main.rs:296-312 | one message applied as the `match` does; no ensures of its own: the Drain lemmas state its effect |
| App.Drain | src/main.rs:294-313 | the waiting messages applied first to last; no ensures of its own: DrainLogs, DrainErrorLogs, DrainFinished, DrainProgress and DrainAppend state its effect |
| App.DeniedWhateverStdout | src/main.rs:417-423 | "Permission denied" on standard error stops the run whatever the dry run printed, logging standard error then the SSH-key message |
| App.StderrReport | src/main.rs:417-419 | blank standard error logs nothing; other standard error is logged whole, then '\n' |
| App.Denied | src/main.rs:417-420 | standard error that is not blank and contains "Permission denied"; DeniedWhateverStdout shows the non-blank test adds nothing |
| App.Decide | src/main.rs:417-436 | the run is refused for authentication exactly when standard error is denied, and the error log always starts with the standard-error report |
| App.CountDecision | src/main.rs:426-436 | never an authentication refusal; the log starts with the standard-error report; a missing count exactly when "Number of files (regular)" is absent |
| App.OtherStderrIsOnlyLogged | src/main.rs:417-424 | other standard error is logged and the checks then end as with empty standard error |
| App.CountDecisionAfterReport | src/main.rs:426-436 | what the count checks log comes after the standard-error report, which changes nothing else |
| App.NoFileCountMeaning | src/main.rs:427-433 | the run stops for want of a count iff the statistics lack "Number of files (regular)", and then logs the count message and the dry run's output |
| App.LaunchCount | src/main.rs:426-436 | the transfer starts with count n iff there is no denial, "Number of files (regular)" is present, and n is its dot-stripped value read as a u64 |
| App.Checks | src/main.rs:417-436 | the button's checks, written as the source writes them, decide as `Decide` does |
| App.ReadCount | src/main.rs:426-436 | the count lookup decides as `CountDecision` does |
| App.AppState.constructor | src/main.rs:49-68 | `AppState::default()`: empty endpoints and logs, every check box off, no run, no child, no progress, not finished |
| App.AppState.Update | src/main.rs:294-313 | with a run being followed, the window's state becomes the drain of the waiting messages in order; with none it is unchanged; the form and the run are untouched |
| App.AppState.Start | src/main.rs:407-438 | logs cleared, progress reset, not finished, the checks' text in the error log; on a passing check the transfer command of the current form is started with the count; otherwise run and child are as before |
| App.AppState.RunClicked | src/main.rs:406-438 | the button leaves the state `Start` describes for the decision `Decide` makes on the dry run's output, and returns that verdict |

## Left out

- The egui window, its widgets and layout, and `main`: user interface.
- Threads, the mpsc channel, `ctx.request_repaint` and `println!`: the pump is a sequential method from the output bytes to the messages sent, and the drain takes the messages waiting in the channel as a parameter.
- The standard-error reader thread (src/main.rs:140-146): its `Error` messages are only drained, by `App.DrainErrorLogs`; how they interleave with the pump's messages is concurrency and is not modelled.
- Spawning the processes, the `expect` on spawn and the `read_until` error case: the outputs of the dry run and of the transfer are parameters. The child process is its `Command`.
- `String::from_utf8_lossy` of the dry run's output: the model takes that output as text.
- SIGINT cancellation through `nix::sys::signal::kill`: a foreign operating-system call.
- `format_bytes` and the f32 arithmetic: the fractions are exact `Fraction` pairs.
- `\d`, `\s`, `\w`, `trim` and `lines` use ASCII character classes only; Rust's are Unicode-aware.
- The file counter of the pump is unbounded; the source's `i32` would wrap after 2^31 file lines.
- The `excluded` field of `AppState`: nothing in the core reads it.
- HashMap iteration order: the statistics are a Dafny `map`.
- App.AppState.RunClicked: the panic of `unwrap` on a count that is not a number is the `Unparsable` verdict, after which the state is as `Start` leaves it without a run.
