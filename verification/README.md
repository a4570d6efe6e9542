# Pomodoro timer — a verified model

This project models `pomodoro_timer`, a terminal Pomodoro timer in one Rust
file (`src/main.rs`). The program does four things:

- It shows a menu in a loop and reads one line per pass. The trimmed line
  "1" to "4" starts a preset session, "5" shows the log, "6" leaves the
  loop, and anything else is rejected.
- A session counts down once a second from `minutes * 60` to 1 and shows
  each reading as `MM:SS`.
- Afterwards it asks for a note. It trims the note and appends one
  pipe-delimited line to `pomodoro_log.txt`.
- The log view prints the file. It prints a placeholder when the file is
  missing or empty.

The model has four modules:

- `Text` holds Rust's `str::trim`, the `{}` and `{:02}` renderings of
  unsigned integers, and their readers.
- `Timer` holds the countdown of `start_timer`.
- `SessionLog` holds the line `log_session` writes and the log file as an
  object (`LogFile`). Its `Append` only appends. Its `View` changes nothing
  and returns what `view_log` prints below its banner.
- `Pomodoro` holds the menu loop and `start_timer`.

The menu loop is the imperative method `RunMenu`. It calls the imperative
`RunPass`, which calls `StartTimer`, `LogFile.Append` and `LogFile.View`.
`RunMenu` is proved against the function `Run`, which runs the loop over
the passes of the input lines. The remaining lemmas say what `Run` does:

- it stops only at the first line that trims to "6";
- the log gains exactly the entries of the sessions run, in order, one line
  each;
- each view prints the log as it stands at that moment;
- an invalid line changes nothing.

What the user types becomes a parameter, one `Turn` per pass: the menu line,
the note line and the clock readings of the session.

## Model

| member | source | states |
|---|---|---|
| `Text.TrimSpec` | src/main.rs:26 | `trim` returns a slice of its input with only whitespace around it. Both ends of the result are non-whitespace. The result is empty exactly when the input is all whitespace. |
| `Text.TrimPadded` | src/main.rs:26 | A non-empty core with non-whitespace ends comes back unchanged from any whitespace padding. |
| `Text.TrimIdempotent` | src/main.rs:68 | Trimming twice is the same as trimming once. |
| `Text.TrimEmpty` | src/main.rs:68 | A trimmed note is empty exactly when the line typed was all whitespace. |
| `Text.TrimmedLineHasNoBreak` | src/main.rs:66-68 | A line as `read_line` returns it has no line break left once trimmed. |
| `Text.Decimal` | src/main.rs:128-133 | `{}` of an unsigned integer is a non-empty digit string with no leading zero: it begins with '0' only as "0" itself, and it has one digit exactly below 10. |
| `Text.DecimalRoundTrip` | src/main.rs:128-133 | Reading back the `{}` rendering gives the number. |
| `Text.Pad2` | src/main.rs:51 | `{:02}` gives at least two digits, exactly two below 100, and reads back as the number. |
| `Timer.Split` | src/main.rs:49-50 | `remaining / 60` and `remaining % 60` give seconds below 60 that add back up to `remaining`. |
| `Timer.SplitSeconds` | src/main.rs:49-50 | Splitting is inverse to counting seconds on canonical readings. |
| `Timer.DisplayShape` | src/main.rs:51 | A reading below 100 minutes shows as five characters `MM:SS`, and both fields read back. |
| `Timer.Countdown` | src/main.rs:46-54 | The loop shows `minutes * 60` readings. Reading `i` stands for `minutes * 60 - i` seconds with seconds below 60, so the readings fall by one second each from the full session to 00:01. No reading is 00:00. |
| `Timer.PresetTicksFit` | src/main.rs:48-51 | For sessions up to 25 minutes, every reading has at most that many minutes and shows as exactly `MM:SS`. |
| `SessionLog.ChronoTextIsPlain` | src/main.rs:129-133 | The chrono date and time formats contain no character the line format depends on. |
| `SessionLog.Entry` | src/main.rs:126-145 | A log entry is non-empty and ends in a newline. |
| `SessionLog.NoteSuffix` | src/main.rs:135-144 | A line with a note is the line without one, with ` \| Note: <note>` inserted before the newline. |
| `SessionLog.NoteMarker` | src/main.rs:126-145 | With no note there is no `Note:` field. With a note, the first `N` of the line opens the single ` \| Note: ` field, which holds the note verbatim. |
| `SessionLog.EntryRoundTrip` | src/main.rs:126-145 | The line format loses nothing: the line reads back as the session it logs, whatever the note holds. |
| `SessionLog.EntryIsOneLine` | src/main.rs:126-145 | A line built from fields without line breaks contains exactly one newline, as its last character. |
| `SessionLog.LogFile.constructor` | src/main.rs:147-151 | A log that does not exist yet is missing and empty. |
| `SessionLog.LogFile.Existing` | src/main.rs:161-163 | A log found on disk is present with its contents. |
| `SessionLog.LogFile.Append` | src/main.rs:147-154 | Opening with create and append makes the file present and adds the entry after the old text. Nothing else changes. |
| `SessionLog.LogFile.View` | src/main.rs:161-172 | Below its banner it prints the placeholder when the file is missing or empty and the contents otherwise, each followed by `println!`'s newline. It modifies nothing. |
| `SessionLog.LogSession` | src/main.rs:125-155 | `log_session` appends exactly the entry of the session. |
| `Pomodoro.Dispatch` | src/main.rs:26-37 | A line starts one of the four presets exactly when it trims to "1" to "4". It views the log exactly when it trims to "5". It is invalid exactly when it trims to none of "1" to "6". |
| `Pomodoro.DispatchTable` | src/main.rs:26-35 | Choices "1" to "6", with any whitespace around them, select 25-minute Work, 5-minute Short Break, 15-minute Long Break, 1-minute Test, the log view and exit. |
| `Pomodoro.DispatchExit` | src/main.rs:32-35 | A line selects exit exactly when it trims to "6". |
| `Pomodoro.StartTimer` | src/main.rs:41-78 | A session shows the countdown of its length. It then appends the entry for its preset, its clock readings and the trimmed note. |
| `Pomodoro.PassOf` | src/main.rs:26-31 | A pass writes a log line exactly when it runs a session. |
| `Pomodoro.Run` | src/main.rs:12-38 | The loop never makes more passes than there are lines. |
| `Pomodoro.RunPass` | src/main.rs:23-37 | One pass does what `Step` says of its line, or reports the exit choice and leaves the log alone. |
| `Pomodoro.RunMenu` | src/main.rs:12-38 | The loop leaves the log, the views printed, whether it exited and the number of lines read as `Run` gives them. |
| `Pomodoro.ExitFirst` | src/main.rs:32-35 | The loop exits exactly when some pass chooses exit, at the first such pass. Otherwise it makes every pass. |
| `Pomodoro.ExitOnlyOnSix` | src/main.rs:12-38 | The loop ends only at a line that trims to "6", namely the first one, and reads nothing after it. With no such line it reads every line. |
| `Pomodoro.InvalidIsInert` | src/main.rs:36 | An invalid choice changes nothing: the loop continues as if the line had not been typed. |
| `Pomodoro.InvalidLineIsInert` | src/main.rs:36 | A line that trims to none of "1" to "6" makes an invalid pass with no log entry, and the loop continues as if it had not been typed. |
| `Pomodoro.ViewsSnoc` | src/main.rs:161-168 | Each view shows the original text followed by the entries of every earlier session. The file counts as present once a session has run. |
| `Pomodoro.RunMatchesPasses` | src/main.rs:12-38 | After the loop, the log is the old text followed by the entries of the passes made, in order. The file exists if it did before or a session ran. The views are what `Views` says. |
| `Pomodoro.LoggedEmpty` | src/main.rs:147-154 | The log gains text exactly when some session has run. |
| `Pomodoro.ViewAfter` | src/main.rs:161-172 | A view after a session prints the whole log, new entries included. Before any session it prints the file as it was, or the placeholder. |
| `Pomodoro.SessionEntryReadsBack` | src/main.rs:125-145 | A session's line reads back as its preset, its clock readings and its trimmed note. |
| `Pomodoro.SessionEntryIsOneLine` | src/main.rs:125-145 | A session adds exactly one line. |
| `Pomodoro.SessionEntryNote` | src/main.rs:66-71 | A session's line has a note field exactly when the note typed was not blank. |
| `Pomodoro.LoggedLines` | src/main.rs:147-154 | The log text of a run holds one line per session. |
| `Pomodoro.OneLinePerSession` | src/main.rs:12-38 | After the loop, provided the clock readings and note of every session are well formed, the log holds its old lines plus exactly one line per session run. |
| `Pomodoro.TestSessionThenView` | src/main.rs:26-31 | With no log file, choosing "4", typing the note "debug", then choosing "5" logs one line ending in `Note: debug` and prints it back. |

## Left out

- Menu banners, prompts, `flush`, the "Goodbye" and "Invalid choice" messages and `view_log`'s "Session Log" banner (src/main.rs:9-21, 33, 36, 42-43, 58, 64-65, 73-77, 158-159) are not modelled. Only what the loop reads, logs and shows of the log is modelled.
- The one-second `thread::sleep` and the `\r⏱️  Time remaining:` wrapper around each reading (src/main.rs:51-53) are left out. The countdown is the sequence of readings.
- `Local::now()` and chrono's formatting (src/main.rs:45, 56, 129-133) are inputs: each `Turn` carries the formatted date and start and end times. The date is taken at the start of the session, as in the source.
- `play_alert` and its platform-specific commands (src/main.rs:80-123) are not modelled. They touch neither the log nor the loop.
- The "Press Enter to continue" line read after a session or a view (src/main.rs:74-76, 174-177) is discarded by the program and is not part of a `Turn`.
- Ctrl+C during a countdown ends the process without logging (src/main.rs:43). The model has no interruption.
- `RunMenu`: at the end of input, `read_line` keeps returning an empty line, which the program rejects as invalid forever. The model instead stops when the lines run out and reports that it did not exit.
- `Timer.Countdown`: `minutes * 60` is a `u32` in the source. The model requires that it fits instead of modelling wrap-around; every preset is far below the bound.
- `SessionLog.LogFile.View`: a log file that exists but cannot be read shows the placeholder in the source. The model has no such state, so it treats a read error like a missing file.
- `SessionLog.LogFile.Append`: the `expect` panics on open and write failures (src/main.rs:151, 154) are not modelled. Every append succeeds.
- Stdin read failures (`unwrap` at src/main.rs:24, 67) are not modelled.
