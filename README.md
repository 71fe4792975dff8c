# Operation recorder, modelled in Dafny

This project models the engine of the *recorder-jetbrains* IDE plugin. While a
session is armed, the plugin records what a developer does into an ordered log
and writes that log to `operation.json` when the session stops. It records:

- shell commands, found by three independent detectors:
  - keystroke buffers (`SafeTerminalListener`, `SimpleTerminalListener`)
  - shell-history polling (`TerminalCommandListener`)
  - per-process output capture (`AdvancedTerminalListener`)
- file creations and deletions
- file saves, each recorded as a git diff or as the full content

Files matched by the project's `.gitignore` are left out, and so is anything
under `.git`. Terminal output has its ANSI colour and cursor sequences removed
before it is stored.

One module per source file:

| module | file | form |
|---|---|---|
| `AnsiStripper` | ansi_stripper.dfy | functions and lemmas: a scanner for the regex `ESC [ [0-9;]* [a-zA-Z]` |
| `LogModel` | log_entry.dfy | the entry record, its type names and its JSON object form |
| `GitIgnore` | gitignore.dfy | pattern compilation and matching as functions; the manager is a class whose rule list a load replaces |
| `Recorder` | recorder_service.dfy | the session as a class with `isRecording` and the log as fields |
| `FileOperations` | file_operation_listener.dfy | relative paths and the diff-or-content choice as functions; the listener as a class driving the session |
| `HistoryPolling` | terminal_command_listener.dfy | line cleaning and slicing as functions; the poller as a class with its offset; the recording loop as a `while` loop |
| `SafeTerminal`, `SimpleTerminal` | safe_/simple_terminal_listener.dfy | the buffer transition as a function; the listeners as classes whose buffer, flags and cache the methods update; the ancestor walk as a `while` loop |
| `AdvancedTerminal` | advanced_terminal_listener.dfy | the listener as a class holding a map from process to buffer state; attaching to running processes as a loop |

Two small shared modules hold the common pieces:

- `Text` holds the Kotlin string functions the code uses: `trim`,
  `isBlank`, `contains`, `substringAfter`, `take` and `lowercase`.
- `KeyEvents` holds the AWT event shapes and a generic replay of keystrokes.

## How the outside world is modelled

- **Clock.** Time (`System.currentTimeMillis`) is an input `now`.
- **Recording state and the log.** A detector that adds entries changes
  `recorder.isRecording`/`recorder.operationLog` through the session's
  methods.
- **Outside inputs.** The project base path, the `.gitignore` contents, the
  history file contents, the `git diff` answer, the Terminal tool window
  state, the component tree and the IDE's running processes are all
  parameters.
- **Callbacks.** `invokeLater` and the diff provider's callback are taken to
  run at once.

## Model

| member | source | states |
|---|---|---|
| AnsiStripper.MatchEnd | src/main/kotlin/com/github/disdjj/recorderjetbrains/utils/AnsiStripper.kt:16 | Where the regex match starting at a position ends, if one starts there; the end lies at least three characters on and within the text. MatchEndSpec proves it agrees with the regex |
| AnsiStripper.MatchEndSpec | src/main/kotlin/com/github/disdjj/recorderjetbrains/utils/AnsiStripper.kt:16 | The scanner recognises a control sequence at a position exactly when the text from there is `ESC`, `[`, digits or `;`, then one ASCII letter (both directions) |
| AnsiStripper.StripAnsi | src/main/kotlin/com/github/disdjj/recorderjetbrains/utils/AnsiStripper.kt:24-26 | Stripping never makes text longer |
| AnsiStripper.ContainsAnsi | src/main/kotlin/com/github/disdjj/recorderjetbrains/utils/AnsiStripper.kt:34-36 | `containsAnsi`: a match starts at some position. ContainsAnsiSpec and StripIdentityIff state what it means |
| AnsiStripper.ContainsAnsiSpec | src/main/kotlin/com/github/disdjj/recorderjetbrains/utils/AnsiStripper.kt:34-36 | `containsAnsi` holds exactly when some substring is a complete control sequence |
| AnsiStripper.StripWithoutAnsi | src/main/kotlin/com/github/disdjj/recorderjetbrains/utils/AnsiStripper.kt:24-26 | Text with no control sequence comes back unchanged |
| AnsiStripper.StripWithAnsiShrinks | src/main/kotlin/com/github/disdjj/recorderjetbrains/utils/AnsiStripper.kt:24-26 | Text with a control sequence comes back strictly shorter |
| AnsiStripper.StripIdentityIff | src/main/kotlin/com/github/disdjj/recorderjetbrains/utils/AnsiStripper.kt:24-36 | `stripAnsi` is the identity on a text exactly when `containsAnsi` is false for it |
| AnsiStripper.StripIsSubsequence | src/main/kotlin/com/github/disdjj/recorderjetbrains/utils/AnsiStripper.kt:24-26 | Stripping only deletes: the result is a subsequence of the input |
| AnsiStripper.StripPlainPrefix | src/main/kotlin/com/github/disdjj/recorderjetbrains/utils/AnsiStripper.kt:24-26 | Text before the first escape character is kept verbatim |
| AnsiStripper.StripSeqPrefix | src/main/kotlin/com/github/disdjj/recorderjetbrains/utils/AnsiStripper.kt:24-26 | A leading control sequence disappears completely |
| AnsiStripper.StripAroundPlainText | src/main/kotlin/com/github/disdjj/recorderjetbrains/utils/AnsiStripper.kt:24-26 | Colour-on, text, colour-off, text becomes the two texts joined |
| AnsiStripper.StripRedText | src/test/kotlin/com/github/disdjj/recorderjetbrains/TerminalRecordingTest.kt:13-16 | The red-text example strips to "Red text Normal text" |
| AnsiStripper.StripPlainExample | src/test/kotlin/com/github/disdjj/recorderjetbrains/TerminalRecordingTest.kt:18-20 | Plain text is returned unchanged |
| AnsiStripper.ContainsAnsiExamples | src/test/kotlin/com/github/disdjj/recorderjetbrains/TerminalRecordingTest.kt:23-28 | The coloured example contains a sequence; "Normal text" does not |
| AnsiStripper.ForeignSequencesKept | src/main/kotlin/com/github/disdjj/recorderjetbrains/utils/AnsiStripper.kt:16 | Sequences outside the regex (`ESC[?25h`, an unterminated `ESC[12;`) are kept |
| AnsiStripper.ForeignEscKept | src/main/kotlin/com/github/disdjj/recorderjetbrains/utils/AnsiStripper.kt:16-26 | For every input: an escape character at which no complete sequence starts is kept, and the scan continues from the next character. With StripPlainPrefix and StripSeqPrefix this characterises `stripAnsi` completely |
| AnsiStripper.StripIsSinglePass | src/main/kotlin/com/github/disdjj/recorderjetbrains/utils/AnsiStripper.kt:24-26 | One pass can leave a sequence behind: `ESC[ESC[31mm` strips to `ESC[m`, which still contains one |
| LogModel.Bare | src/main/kotlin/com/github/disdjj/recorderjetbrains/model/LogEntry.kt:8-26 | An entry given only timestamp and type serialises to the two members `timestamp` and `type` and nothing else, because Gson omits `null` fields; every entry builder starts from it |
| LogModel.TypeName | src/main/kotlin/com/github/disdjj/recorderjetbrains/model/LogEntry.kt:28-43 | The serialized name of each of the five kinds. TypeNameRoundTrip and TypeNameInjective state that it identifies the kind |
| LogModel.TypeFromName | src/main/kotlin/com/github/disdjj/recorderjetbrains/model/LogEntry.kt:28-43 | A recognised serialized name maps back to a type with that name |
| LogModel.TypeNameRoundTrip | src/main/kotlin/com/github/disdjj/recorderjetbrains/model/LogEntry.kt:28-43 | Every type's serialized name reads back as that type |
| LogModel.TypeNameInjective | src/main/kotlin/com/github/disdjj/recorderjetbrains/model/LogEntry.kt:28-43 | No two types share a serialized name |
| LogModel.OptionalMember | src/main/kotlin/com/github/disdjj/recorderjetbrains/model/LogEntry.kt:15-25 | An optional field contributes only members of its own name |
| LogModel.ToJson | src/main/kotlin/com/github/disdjj/recorderjetbrains/services/RecorderService.kt:104 | Gson's object for one entry: `timestamp`, `type` by name, then the four optional members, each only when set. JsonRoundTrip and Bare state its contents |
| LogModel.FromJson | src/main/kotlin/com/github/disdjj/recorderjetbrains/model/LogEntry.kt:8-26 | Reading an entry back from its object: the inverse that JsonRoundTrip proves ToJson against |
| LogModel.JsonRoundTrip | src/main/kotlin/com/github/disdjj/recorderjetbrains/model/LogEntry.kt:8-26 | Reading back the JSON object of an entry gives the entry; each optional member is present exactly when its field is set, with its value |
| LogModel.Serialize | src/main/kotlin/com/github/disdjj/recorderjetbrains/services/RecorderService.kt:104 | The document has one object per entry, in log order |
| LogModel.SerializeRoundTrip | src/main/kotlin/com/github/disdjj/recorderjetbrains/services/RecorderService.kt:100-105 | Every object of the saved document reads back as the entry at the same position |
| GitIgnore.Compile | src/main/kotlin/com/github/disdjj/recorderjetbrains/services/GitIgnoreManager.kt:55-97 | The compiled rule of one pattern: its glob, the directory flag and the anchoring flag. CompileRoundTrip and CompileFlags state what it keeps |
| GitIgnore.ToGlob | src/main/kotlin/com/github/disdjj/recorderjetbrains/services/GitIgnoreManager.kt:64-79 | Each pattern character becomes one glob atom |
| GitIgnore.RenderToGlob | src/main/kotlin/com/github/disdjj/recorderjetbrains/services/GitIgnoreManager.kt:64-79 | Rendering the atoms gives back the pattern body: escaping and wildcard translation lose nothing |
| GitIgnore.CompileRoundTrip | src/main/kotlin/com/github/disdjj/recorderjetbrains/services/GitIgnoreManager.kt:55-97 | A compiled rule renders back to the original pattern, trailing `/` and leading `/` included |
| GitIgnore.CompileFlags | src/main/kotlin/com/github/disdjj/recorderjetbrains/services/GitIgnoreManager.kt:58-87 | A rule is a directory rule exactly when the pattern ends in `/`; it is anchored exactly when what remains starts with `/` |
| GitIgnore.GlobMatch | src/main/kotlin/com/github/disdjj/recorderjetbrains/services/GitIgnoreManager.kt:64-79 | Whole-input matching of the translated wildcards, as `Matcher.matches` does. StarMatchesAnyRun, QuestionMatchesOne, LiteralGlobExact, GlobStarThen and GlobEndsWithLiteral state its meaning |
| GitIgnore.RuleMatches | src/main/kotlin/com/github/disdjj/recorderjetbrains/services/GitIgnoreManager.kt:81-94 | A compiled rule matches a path: after an optional directory prefix for an unanchored rule, the body, then for a directory rule an optional `/` and rest. FileRuleExact, DirRuleCoversBeneath, UnanchoredAnyDepth and AnchoredFromRoot state its meaning |
| GitIgnore.StarMatchesAnyRun | src/main/kotlin/com/github/disdjj/recorderjetbrains/services/GitIgnoreManager.kt:78 | `*` matches any run without line terminators (Java's `.`) |
| GitIgnore.QuestionMatchesOne | src/main/kotlin/com/github/disdjj/recorderjetbrains/services/GitIgnoreManager.kt:79 | `?` matches exactly one character that is not a line terminator |
| GitIgnore.LiteralGlobExact | src/main/kotlin/com/github/disdjj/recorderjetbrains/services/GitIgnoreManager.kt:64-75 | A pattern without wildcards matches only itself: the escaped characters are literal |
| GitIgnore.GlobStarThen | src/main/kotlin/com/github/disdjj/recorderjetbrains/services/GitIgnoreManager.kt:78 | A leading `*` absorbs any prefix before what the rest matches |
| GitIgnore.GlobEndsWithLiteral | src/main/kotlin/com/github/disdjj/recorderjetbrains/services/GitIgnoreManager.kt:93 | A match of a glob ending in a literal ends in that literal: the pattern is anchored at the end |
| GitIgnore.FileRuleExact | src/main/kotlin/com/github/disdjj/recorderjetbrains/services/GitIgnoreManager.kt:92-94 | A file rule's body matches only whole names, not names with a suffix |
| GitIgnore.DirRuleCoversBeneath | src/main/kotlin/com/github/disdjj/recorderjetbrains/services/GitIgnoreManager.kt:89-91 | A directory rule matches the directory and every path beneath it |
| GitIgnore.UnanchoredAnyDepth | src/main/kotlin/com/github/disdjj/recorderjetbrains/services/GitIgnoreManager.kt:84-87 | An unanchored rule that matches a path also matches it below any directory |
| GitIgnore.AnchoredFromRoot | src/main/kotlin/com/github/disdjj/recorderjetbrains/services/GitIgnoreManager.kt:82-83 | An anchored rule matches only from the project root |
| GitIgnore.AnyRuleMatches | src/main/kotlin/com/github/disdjj/recorderjetbrains/services/GitIgnoreManager.kt:50-52 | True exactly when some loaded rule matches |
| GitIgnore.IsGitPath | src/main/kotlin/com/github/disdjj/recorderjetbrains/services/GitIgnoreManager.kt:46 | The built-in rule: `.git` itself or a path starting `.git/`. BuiltinRuleIsExact and GitFilesNeverRecorded state its reach |
| GitIgnore.IsIgnored | src/main/kotlin/com/github/disdjj/recorderjetbrains/services/GitIgnoreManager.kt:44-53 | `.git` and everything under `.git/` is always ignored; otherwise a path is ignored exactly when a rule matches |
| GitIgnore.NoRulesOnlyGit | src/main/kotlin/com/github/disdjj/recorderjetbrains/services/GitIgnoreManager.kt:44-48 | With no rules only `.git` paths are ignored |
| GitIgnore.BuiltinRuleIsExact | src/main/kotlin/com/github/disdjj/recorderjetbrains/services/GitIgnoreManager.kt:46 | The built-in rule spares `.gitignore` and `.github/...` |
| GitIgnore.PatternLines | src/main/kotlin/com/github/disdjj/recorderjetbrains/services/GitIgnoreManager.kt:29-31 | Kept lines are trimmed, non-empty and not comments, and no more numerous than the input |
| GitIgnore.PatternLinesAppend | src/main/kotlin/com/github/disdjj/recorderjetbrains/services/GitIgnoreManager.kt:29-31 | Filtering distributes over concatenation: file order is kept |
| GitIgnore.PatternLinesMembers | src/main/kotlin/com/github/disdjj/recorderjetbrains/services/GitIgnoreManager.kt:29-31 | A pattern is kept exactly when it is the trimmed, non-comment, non-empty form of some line |
| GitIgnore.SkippedLines | src/main/kotlin/com/github/disdjj/recorderjetbrains/services/GitIgnoreManager.kt:31 | Blank and `#` lines produce no rule |
| GitIgnore.LoadRules | src/main/kotlin/com/github/disdjj/recorderjetbrains/services/GitIgnoreManager.kt:29-35 | One rule per kept line, in order, each the compiled line |
| GitIgnore.GitIgnoreManager.constructor | src/main/kotlin/com/github/disdjj/recorderjetbrains/services/GitIgnoreManager.kt:14-16 | A new manager holds the rules of its first load |
| GitIgnore.GitIgnoreManager.LoadGitIgnore | src/main/kotlin/com/github/disdjj/recorderjetbrains/services/GitIgnoreManager.kt:18-42 | No base path keeps the old rules; a missing or unreadable file clears them; otherwise they are the file's rules |
| GitIgnore.GitIgnoreManager.Ignores | src/main/kotlin/com/github/disdjj/recorderjetbrains/services/GitIgnoreManager.kt:44-53 | `isIgnored` over the current rule list: `.git` paths or a matching rule |
| GitIgnore.CompileStarLog | src/main/kotlin/com/github/disdjj/recorderjetbrains/services/GitIgnoreManager.kt:55-97 | `*.log` compiles to an unanchored file rule `*` then `.log` |
| GitIgnore.StarLogExample | src/main/kotlin/com/github/disdjj/recorderjetbrains/services/GitIgnoreManager.kt:44-97 | `*.log` ignores `build/output.log` but not `output.log.txt` |
| GitIgnore.StarLogHit | src/main/kotlin/com/github/disdjj/recorderjetbrains/services/GitIgnoreManager.kt:78-94 | `*.log` matches every name ending in `.log` that has no line terminator, in any directory |
| GitIgnore.StarLogMiss | src/main/kotlin/com/github/disdjj/recorderjetbrains/services/GitIgnoreManager.kt:92-94 | `*.log` does not match a name that only contains `.log` |
| GitIgnore.AnchoredExample | src/main/kotlin/com/github/disdjj/recorderjetbrains/services/GitIgnoreManager.kt:82-87 | `/build` ignores `build` but not `src/build` |
| Recorder.CommandEntry | src/main/kotlin/com/github/disdjj/recorderjetbrains/services/RecorderService.kt:55-62 | The COMMAND entry of `addCommandEntry`. BuildersWellShaped states its fields |
| Recorder.FileCreateEntry | src/main/kotlin/com/github/disdjj/recorderjetbrains/services/RecorderService.kt:64-71 | The FILE_CREATE entry of `addFileCreateEntry`. BuildersWellShaped states its fields |
| Recorder.FileDeleteEntry | src/main/kotlin/com/github/disdjj/recorderjetbrains/services/RecorderService.kt:73-80 | The FILE_DELETE entry of `addFileDeleteEntry`. BuildersWellShaped states its fields |
| Recorder.FileDiffEntry | src/main/kotlin/com/github/disdjj/recorderjetbrains/services/RecorderService.kt:82-89 | The FILE_DIFF entry of `addFileDiffEntry`. BuildersWellShaped states its fields |
| Recorder.FileContentEntry | src/main/kotlin/com/github/disdjj/recorderjetbrains/services/RecorderService.kt:91-98 | The FILE_CONTENT entry of `addFileContentEntry`. BuildersWellShaped states its fields |
| Recorder.BuildersWellShaped | src/main/kotlin/com/github/disdjj/recorderjetbrains/services/RecorderService.kt:55-98 | Each builder gives its kind with the fields that kind carries: command and stripped output, or path and data (empty for create and delete) |
| Recorder.BuildersDistinctKinds | src/main/kotlin/com/github/disdjj/recorderjetbrains/services/RecorderService.kt:55-98 | The five builders give the five serialized type names |
| Recorder.RecorderService.constructor | src/main/kotlin/com/github/disdjj/recorderjetbrains/services/RecorderService.kt:17-18 | A new session is idle with an empty log |
| Recorder.RecorderService.StartRecording | src/main/kotlin/com/github/disdjj/recorderjetbrains/services/RecorderService.kt:28-32 | Arms the session and clears the log |
| Recorder.RecorderService.StopRecording | src/main/kotlin/com/github/disdjj/recorderjetbrains/services/RecorderService.kt:34-44 | Disarms; an empty log is not written and gives false; otherwise the result is whether the base path exists and the write succeeds, and the document written is the serialised log |
| Recorder.RecorderService.SaveOperationLog | src/main/kotlin/com/github/disdjj/recorderjetbrains/services/RecorderService.kt:100-115 | Without a base path nothing is written and the result is false; otherwise the document is the serialised log and the result is the write's success |
| Recorder.RecorderService.AddLogEntry | src/main/kotlin/com/github/disdjj/recorderjetbrains/services/RecorderService.kt:46-53 | Appends exactly the entry while recording; otherwise nothing changes |
| Recorder.RecorderService.AddCommandEntry | src/main/kotlin/com/github/disdjj/recorderjetbrains/services/RecorderService.kt:55-62 | Appends one COMMAND entry with the output stripped, only while recording |
| Recorder.RecorderService.AddFileCreateEntry | src/main/kotlin/com/github/disdjj/recorderjetbrains/services/RecorderService.kt:64-71 | Appends one FILE_CREATE entry with empty data, only while recording |
| Recorder.RecorderService.AddFileDeleteEntry | src/main/kotlin/com/github/disdjj/recorderjetbrains/services/RecorderService.kt:73-80 | Appends one FILE_DELETE entry with empty data, only while recording |
| Recorder.RecorderService.AddFileDiffEntry | src/main/kotlin/com/github/disdjj/recorderjetbrains/services/RecorderService.kt:82-89 | Appends one FILE_DIFF entry carrying the diff, only while recording |
| Recorder.RecorderService.AddFileContentEntry | src/main/kotlin/com/github/disdjj/recorderjetbrains/services/RecorderService.kt:91-98 | Appends one FILE_CONTENT entry carrying the content, only while recording |
| Recorder.RecordOneCommand | src/test/kotlin/com/github/disdjj/recorderjetbrains/TerminalRecordingTest.kt:31-42 | After starting and adding one command the session records and counts one entry |
| Recorder.StopWithoutEntries | src/main/kotlin/com/github/disdjj/recorderjetbrains/services/RecorderService.kt:34-41 | Start then stop writes nothing and returns false |
| Recorder.StopWithOneCommand | src/main/kotlin/com/github/disdjj/recorderjetbrains/services/RecorderService.kt:34-44 | One command then stop is saved as a one-element document of type COMMAND |
| Recorder.DiscardOutsideSession | src/main/kotlin/com/github/disdjj/recorderjetbrains/services/RecorderService.kt:28-53 | Entries offered before start or after stop never appear; restarting drops earlier entries |
| FileOperations.Relativize | src/main/kotlin/com/github/disdjj/recorderjetbrains/listeners/FileOperationListener.kt:86-96 | Java's `relativize` on the two paths, then one trailing `/` dropped. RelativePathOfJoin and RelativePathDropsOneSlash state its meaning |
| FileOperations.RelativePath | src/main/kotlin/com/github/disdjj/recorderjetbrains/listeners/FileOperationListener.kt:84-101 | There is a relative path exactly when the project has a base path |
| FileOperations.RelativePathOfJoin | src/main/kotlin/com/github/disdjj/recorderjetbrains/listeners/FileOperationListener.kt:84-101 | A file or directory below the base comes back as the relative path it was joined from |
| FileOperations.RelativePathDropsOneSlash | src/main/kotlin/com/github/disdjj/recorderjetbrains/listeners/FileOperationListener.kt:92-96 | Only one trailing `/` is removed |
| FileOperations.RecordablePath | src/main/kotlin/com/github/disdjj/recorderjetbrains/listeners/FileOperationListener.kt:27-34 | A file event has a path to record exactly when the base path exists and the relative path is not ignored; it is that relative path |
| FileOperations.ProviderDiff | src/main/kotlin/com/github/disdjj/recorderjetbrains/services/GitDiffProvider.kt:53-57 | The provider passes `git diff` output on exactly when the exit code is 0 and the output is not blank |
| FileOperations.SaveEntry | src/main/kotlin/com/github/disdjj/recorderjetbrains/listeners/FileOperationListener.kt:68-82 | A save gives one entry: FILE_DIFF with the diff when it is non-blank, otherwise FILE_CONTENT with the document text |
| FileOperations.SaveWithGitProvider | src/main/kotlin/com/github/disdjj/recorderjetbrains/listeners/FileOperationListener.kt:71-80 | Composed with the provider, a save is a diff exactly when `git diff` succeeded with output |
| FileOperations.FileOperationListener.constructor | src/main/kotlin/com/github/disdjj/recorderjetbrains/listeners/FileOperationListener.kt:17-22 | The listener shares the session and the ignore manager it is given |
| FileOperations.FileOperationListener.FileCreated | src/main/kotlin/com/github/disdjj/recorderjetbrains/listeners/FileOperationListener.kt:24-36 | While recording, a recordable path adds one FILE_CREATE entry; otherwise the log is unchanged |
| FileOperations.FileOperationListener.FileDeleted | src/main/kotlin/com/github/disdjj/recorderjetbrains/listeners/FileOperationListener.kt:38-50 | While recording, a recordable path adds one FILE_DELETE entry; otherwise the log is unchanged |
| FileOperations.FileOperationListener.BeforeDocumentSaving | src/main/kotlin/com/github/disdjj/recorderjetbrains/listeners/FileOperationListener.kt:53-66 | While recording, a document with a file at a recordable path adds one save entry; otherwise nothing |
| FileOperations.FileOperationListener.HandleFileContentChange | src/main/kotlin/com/github/disdjj/recorderjetbrains/listeners/FileOperationListener.kt:68-82 | Adds exactly the save entry for the provider's answer, while recording |
| FileOperations.FileOperationListener.RefreshGitIgnore | src/main/kotlin/com/github/disdjj/recorderjetbrains/listeners/FileOperationListener.kt:107-109 | Reloads the shared rule list as a load does |
| FileOperations.GitFilesNeverRecorded | src/main/kotlin/com/github/disdjj/recorderjetbrains/listeners/FileOperationListener.kt:84-105 | Nothing under `.git` is recorded, whatever the rules |
| HistoryPolling.CleanHistoryLine | src/main/kotlin/com/github/disdjj/recorderjetbrains/listeners/TerminalCommandListener.kt:145-156 | `cleanHistoryLine`. CleanHistoryLineSpec states what it removes |
| HistoryPolling.CleanHistoryLineSpec | src/main/kotlin/com/github/disdjj/recorderjetbrains/listeners/TerminalCommandListener.kt:145-156 | A line starting with `:` and containing `;` loses exactly the text up to and including its first `;`; any other line is unchanged |
| HistoryPolling.CleanZshExample | src/main/kotlin/com/github/disdjj/recorderjetbrains/listeners/TerminalCommandListener.kt:147-149 | `: 1690000000:0;git status` cleans to `git status` |
| HistoryPolling.CleanLines | src/main/kotlin/com/github/disdjj/recorderjetbrains/listeners/TerminalCommandListener.kt:127-132 | Cleaning never adds lines and drops every blank result |
| HistoryPolling.CleanLinesAppend | src/main/kotlin/com/github/disdjj/recorderjetbrains/listeners/TerminalCommandListener.kt:127-132 | Cleaning distributes over concatenation, so file order is kept |
| HistoryPolling.CleanLinesMembers | src/main/kotlin/com/github/disdjj/recorderjetbrains/listeners/TerminalCommandListener.kt:127-132 | A command comes out exactly when it is the non-blank cleaned form of some line |
| HistoryPolling.NewHistoryCommands | src/main/kotlin/com/github/disdjj/recorderjetbrains/listeners/TerminalCommandListener.kt:121-143 | The cleaned lines from `from` to `min(to, size)`. Nothing when `from` is past the end, when the file is missing or unreadable, or when `subList` would throw on a negative `from` or a `to` below `from` |
| HistoryPolling.NewCommandsAfterAppend | src/main/kotlin/com/github/disdjj/recorderjetbrains/listeners/TerminalCommandListener.kt:121-132 | After lines are appended, the new commands are the cleaned appended lines |
| HistoryPolling.HistoryFile | src/main/kotlin/com/github/disdjj/recorderjetbrains/listeners/TerminalCommandListener.kt:100-119 | A shell name containing `bash` gives `~/.bash_history`. Failing that, `zsh` gives `~/.zsh_history`, then `fish` gives `~/.local/share/fish/fish_history`. With no shell match, a Windows OS name gives the PSReadLine file under `APPDATA` (falling back to the user home), and any other OS name gives `~/.bash_history`. The result is no file exactly when no shell matches and the OS name is missing |
| HistoryPolling.HistoryEntry | src/main/kotlin/com/github/disdjj/recorderjetbrains/listeners/TerminalCommandListener.kt:158-178 | The COMMAND entry with empty output that `recordCommand` adds. HistoryEntriesShape states its fields |
| HistoryPolling.HistoryEntries | src/main/kotlin/com/github/disdjj/recorderjetbrains/listeners/TerminalCommandListener.kt:163-169 | One entry per command, in order |
| HistoryPolling.HistoryEntriesShape | src/main/kotlin/com/github/disdjj/recorderjetbrains/listeners/TerminalCommandListener.kt:163-169 | Each history command becomes a well-formed COMMAND entry with empty output |
| HistoryPolling.TerminalCommandListener.constructor | src/main/kotlin/com/github/disdjj/recorderjetbrains/listeners/TerminalCommandListener.kt:26-29 | A new poller is idle at offset 0 with nothing scheduled |
| HistoryPolling.TerminalCommandListener.StartMonitoring | src/main/kotlin/com/github/disdjj/recorderjetbrains/listeners/TerminalCommandListener.kt:34-52 | Takes the current line count as the offset; schedules polling unless the executor was shut down |
| HistoryPolling.TerminalCommandListener.StopMonitoring | src/main/kotlin/com/github/disdjj/recorderjetbrains/listeners/TerminalCommandListener.kt:57-69 | Stops monitoring and shuts the executor down for good |
| HistoryPolling.TerminalCommandListener.Poll | src/main/kotlin/com/github/disdjj/recorderjetbrains/listeners/TerminalCommandListener.kt:43-47 | A scheduled, live, monitoring poller checks once; otherwise nothing changes |
| HistoryPolling.TerminalCommandListener.CheckForNewCommands | src/main/kotlin/com/github/disdjj/recorderjetbrains/listeners/TerminalCommandListener.kt:71-84 | Records each new command once, in order, while recording; the offset moves only forward, to the current size |
| HistoryPolling.TerminalCommandListener.RecordCommand | src/main/kotlin/com/github/disdjj/recorderjetbrains/listeners/TerminalCommandListener.kt:158-178 | Appends one COMMAND entry with empty output, only while recording |
| HistoryPolling.NextSize | src/main/kotlin/com/github/disdjj/recorderjetbrains/listeners/TerminalCommandListener.kt:73-79 | The offset after one check: the current size when it grew, otherwise unchanged. NextSizeMonotone states that it never decreases |
| HistoryPolling.NextSizeMonotone | src/main/kotlin/com/github/disdjj/recorderjetbrains/listeners/TerminalCommandListener.kt:73-80 | The offset never decreases, and changes only to a larger current size |
| HistoryPolling.NoDoubleRecording | src/main/kotlin/com/github/disdjj/recorderjetbrains/listeners/TerminalCommandListener.kt:71-84 | Polling again over an unchanged file records nothing more |
| HistoryPolling.PollAfterAppend | src/main/kotlin/com/github/disdjj/recorderjetbrains/listeners/TerminalCommandListener.kt:71-84 | One poll after lines are appended records exactly the cleaned new lines |
| HistoryPolling.RestartDoesNotPoll | src/main/kotlin/com/github/disdjj/recorderjetbrains/listeners/TerminalCommandListener.kt:57-69 | After a stop, starting again never records anything: the executor stays shut down |
| SafeTerminal.IsValidCommand | src/main/kotlin/com/github/disdjj/recorderjetbrains/listeners/SafeTerminalListener.kt:147-153 | `isValidCommand`. ValidCommandIff and EmittedCommandShape state its meaning |
| SafeTerminal.IsValidCommandChar | src/main/kotlin/com/github/disdjj/recorderjetbrains/listeners/SafeTerminalListener.kt:155-159 | `isValidCommandChar`: a letter or digit or one of the listed punctuation characters. ControlKeysNotValid states that no control key passes |
| SafeTerminal.ValidCommandIff | src/main/kotlin/com/github/disdjj/recorderjetbrains/listeners/SafeTerminalListener.kt:147-153 | `isValidCommand` is length at least 2, a letter or digit, and no leading `^`; the whitespace clause is implied |
| SafeTerminal.ControlKeysNotValid | src/main/kotlin/com/github/disdjj/recorderjetbrains/listeners/SafeTerminalListener.kt:155-159 | No control character, Enter and Backspace included, is an allowed character |
| SafeTerminal.Typed | src/main/kotlin/com/github/disdjj/recorderjetbrains/listeners/SafeTerminalListener.kt:106-145 | The buffer transition of one typed key and the command it emits. TypedKeepsBufferOk, EnterSpec, BackspaceSpec, TypedAppends and OverflowClears state it case by case |
| SafeTerminal.TypedKeepsBufferOk | src/main/kotlin/com/github/disdjj/recorderjetbrains/listeners/SafeTerminalListener.kt:127-141 | Every key keeps the buffer at most 1000 allowed characters |
| SafeTerminal.EnterSpec | src/main/kotlin/com/github/disdjj/recorderjetbrains/listeners/SafeTerminalListener.kt:110-126 | Enter always clears the buffer; a command is emitted exactly on Enter when the trimmed buffer is valid, and it is that trimmed buffer |
| SafeTerminal.EmittedCommandShape | src/main/kotlin/com/github/disdjj/recorderjetbrains/listeners/SafeTerminalListener.kt:110-126 | An emitted command has no surrounding whitespace, at least 2 characters, a letter or digit and no leading `^` |
| SafeTerminal.OverflowClears | src/main/kotlin/com/github/disdjj/recorderjetbrains/listeners/SafeTerminalListener.kt:138-141 | The 1001st character empties the buffer |
| SafeTerminal.BackspaceSpec | src/main/kotlin/com/github/disdjj/recorderjetbrains/listeners/SafeTerminalListener.kt:127-132 | Backspace removes the last character, leaves an empty buffer empty, and emits nothing |
| SafeTerminal.TypedAppends | src/main/kotlin/com/github/disdjj/recorderjetbrains/listeners/SafeTerminalListener.kt:133-141 | With room left, an allowed character is appended |
| SafeTerminal.TypeLine | src/main/kotlin/com/github/disdjj/recorderjetbrains/listeners/SafeTerminalListener.kt:133-141 | Typing up to 1000 allowed characters fills the buffer with them and emits nothing |
| SafeTerminal.PressEnter | src/main/kotlin/com/github/disdjj/recorderjetbrains/listeners/SafeTerminalListener.kt:110-126 | Enter emits the trimmed buffer when it is valid and leaves the buffer empty |
| SafeTerminal.TypeLineThenEnter | src/main/kotlin/com/github/disdjj/recorderjetbrains/listeners/SafeTerminalListener.kt:106-145 | Typing a line and Enter records the trimmed line exactly when it is valid |
| SafeTerminal.KeyedEntriesShape | src/main/kotlin/com/github/disdjj/recorderjetbrains/listeners/SafeTerminalListener.kt:113-123 | A key adds at most one entry, exactly on Enter over a valid line while recording, as a COMMAND with empty output |
| SafeTerminal.SafeTerminalListener.constructor | src/main/kotlin/com/github/disdjj/recorderjetbrains/listeners/SafeTerminalListener.kt:22-25 | Empty buffer, not listening, last check at 0, cache false |
| SafeTerminal.SafeTerminalListener.StartListening | src/main/kotlin/com/github/disdjj/recorderjetbrains/listeners/SafeTerminalListener.kt:30-44 | Listening afterwards; the buffer and cache are untouched |
| SafeTerminal.SafeTerminalListener.StopListening | src/main/kotlin/com/github/disdjj/recorderjetbrains/listeners/SafeTerminalListener.kt:46-60 | Not listening afterwards; the buffer is cleared only if it was listening |
| SafeTerminal.SafeTerminalListener.IsInTerminal | src/main/kotlin/com/github/disdjj/recorderjetbrains/listeners/SafeTerminalListener.kt:80-104 | Within 1000 ms of the last check the cached answer is returned and nothing changes; otherwise visible-and-active is computed, cached and time-stamped (false when there is no window) |
| SafeTerminal.SafeTerminalListener.HandleKeyTyped | src/main/kotlin/com/github/disdjj/recorderjetbrains/listeners/SafeTerminalListener.kt:106-145 | The buffer takes the key's transition and an emitted command is recorded; the buffer invariant is kept |
| SafeTerminal.SafeTerminalListener.EventDispatched | src/main/kotlin/com/github/disdjj/recorderjetbrains/listeners/SafeTerminalListener.kt:62-78 | Only KEY_TYPED events while recording consult the cache, and only in the terminal do they change the buffer or the log |
| SimpleTerminal.IsAllowedChar | src/main/kotlin/com/github/disdjj/recorderjetbrains/listeners/SimpleTerminalListener.kt:109 | The characters the buffer accepts: a letter or digit or one of the listed punctuation characters. ControlCharsNotAllowed states that no control key passes |
| SimpleTerminal.ControlCharsNotAllowed | src/main/kotlin/com/github/disdjj/recorderjetbrains/listeners/SimpleTerminalListener.kt:107-112 | No control character is an allowed character |
| SimpleTerminal.Typed | src/main/kotlin/com/github/disdjj/recorderjetbrains/listeners/SimpleTerminalListener.kt:85-114 | The buffer transition of one typed key and the command it emits. EnterSpec, TypedKeepsAlphabet and NoLengthCap state it case by case |
| SimpleTerminal.EnterSpec | src/main/kotlin/com/github/disdjj/recorderjetbrains/listeners/SimpleTerminalListener.kt:89-100 | Enter clears the buffer; a command is emitted exactly on Enter over a non-blank buffer, trimmed |
| SimpleTerminal.TypedKeepsAlphabet | src/main/kotlin/com/github/disdjj/recorderjetbrains/listeners/SimpleTerminalListener.kt:101-112 | The buffer only ever holds allowed characters |
| SimpleTerminal.NoLengthCap | src/main/kotlin/com/github/disdjj/recorderjetbrains/listeners/SimpleTerminalListener.kt:107-112 | An allowed character is always appended: there is no cap |
| SimpleTerminal.TypeLine | src/main/kotlin/com/github/disdjj/recorderjetbrains/listeners/SimpleTerminalListener.kt:107-112 | Typing allowed characters of any length fills the buffer with them and emits nothing |
| SimpleTerminal.TypeLineThenEnter | src/main/kotlin/com/github/disdjj/recorderjetbrains/listeners/SimpleTerminalListener.kt:85-114 | Typing a line and Enter records the trimmed line exactly when it is not blank |
| SimpleTerminal.Pressed | src/main/kotlin/com/github/disdjj/recorderjetbrains/listeners/SimpleTerminalListener.kt:116-137 | Ctrl+C and Ctrl+U empty the buffer; Ctrl+L and all other presses keep it |
| SimpleTerminal.IsTerminalClassName | src/main/kotlin/com/github/disdjj/recorderjetbrains/listeners/SimpleTerminalListener.kt:144-150 | The lower-cased class name contains `terminal`, `shell`, `console` or `jediterm`. ClassNameIgnoresCase and JediTermClassIsTerminal state its meaning |
| SimpleTerminal.ClassNameIgnoresCase | src/main/kotlin/com/github/disdjj/recorderjetbrains/listeners/SimpleTerminalListener.kt:144-150 | The class-name test gives the same answer for a name and its lower-case form |
| SimpleTerminal.JediTermClassIsTerminal | src/main/kotlin/com/github/disdjj/recorderjetbrains/listeners/SimpleTerminalListener.kt:144-150 | Any class name containing `jediterm` is a terminal |
| SimpleTerminal.Ancestors | src/main/kotlin/com/github/disdjj/recorderjetbrains/listeners/SimpleTerminalListener.kt:180-189 | The strict chain of containers above a component, nearest first, all earlier in the tree order |
| SimpleTerminal.NotOwnDescendant | src/main/kotlin/com/github/disdjj/recorderjetbrains/listeners/SimpleTerminalListener.kt:180-189 | A component is not its own descendant |
| SimpleTerminal.AncestorsTransitive | src/main/kotlin/com/github/disdjj/recorderjetbrains/listeners/SimpleTerminalListener.kt:180-189 | An ancestor of an ancestor is an ancestor |
| SimpleTerminal.IsDescendantOf | src/main/kotlin/com/github/disdjj/recorderjetbrains/listeners/SimpleTerminalListener.kt:180-189 | True exactly when the ancestor is in the strict parent chain |
| SimpleTerminal.IsTerminalComponent | src/main/kotlin/com/github/disdjj/recorderjetbrains/listeners/SimpleTerminalListener.kt:139-178 | No component is not a terminal; otherwise a terminal class name, or lying inside the visible Terminal tool window |
| SimpleTerminal.SimpleTerminalListener.constructor | src/main/kotlin/com/github/disdjj/recorderjetbrains/listeners/SimpleTerminalListener.kt:26-28 | Empty buffer, not in a terminal, not listening |
| SimpleTerminal.SimpleTerminalListener.StartListening | src/main/kotlin/com/github/disdjj/recorderjetbrains/listeners/SimpleTerminalListener.kt:30-44 | Listening afterwards; the buffer is untouched |
| SimpleTerminal.SimpleTerminalListener.StopListening | src/main/kotlin/com/github/disdjj/recorderjetbrains/listeners/SimpleTerminalListener.kt:46-60 | Not listening afterwards; the buffer is cleared only if it was listening |
| SimpleTerminal.SimpleTerminalListener.HandleKeyTyped | src/main/kotlin/com/github/disdjj/recorderjetbrains/listeners/SimpleTerminalListener.kt:85-114 | The buffer takes the key's transition and an emitted command is recorded |
| SimpleTerminal.SimpleTerminalListener.HandleKeyPressed | src/main/kotlin/com/github/disdjj/recorderjetbrains/listeners/SimpleTerminalListener.kt:116-137 | The buffer takes the key-press transition |
| SimpleTerminal.SimpleTerminalListener.EventDispatched | src/main/kotlin/com/github/disdjj/recorderjetbrains/listeners/SimpleTerminalListener.kt:62-83 | Key events while recording refresh `isInTerminal`; typed and pressed keys in a terminal reach the buffer; nothing else changes anything |
| SimpleTerminal.KeyedEntriesShape | src/main/kotlin/com/github/disdjj/recorderjetbrains/listeners/SimpleTerminalListener.kt:89-98 | A key adds at most one entry, exactly on Enter over a non-blank buffer while recording, as a COMMAND with empty output |
| AdvancedTerminal.ExtractCommand | src/main/kotlin/com/github/disdjj/recorderjetbrains/listeners/AdvancedTerminalListener.kt:145-162 | A process's label from its display name. ExtractCommandEmptyIff, ExtractCommandLength, MissingNameIsUnknown and RunLabel state its meaning |
| AdvancedTerminal.ExtractCommandEmptyIff | src/main/kotlin/com/github/disdjj/recorderjetbrains/listeners/AdvancedTerminalListener.kt:145-162 | The label is empty exactly for a Run (or, without Run, Debug) name with only blanks after the marker |
| AdvancedTerminal.ExtractCommandLength | src/main/kotlin/com/github/disdjj/recorderjetbrains/listeners/AdvancedTerminalListener.kt:145-162 | Apart from the two fixed labels, a label is never longer than the display name |
| AdvancedTerminal.MissingNameIsUnknown | src/main/kotlin/com/github/disdjj/recorderjetbrains/listeners/AdvancedTerminalListener.kt:148-156 | A missing display name is labelled "unknown command" |
| AdvancedTerminal.RunLabel | src/main/kotlin/com/github/disdjj/recorderjetbrains/listeners/AdvancedTerminalListener.kt:154 | `Run x` without "Terminal" is labelled `x` |
| Text.Take | src/main/kotlin/com/github/disdjj/recorderjetbrains/listeners/AdvancedTerminalListener.kt:172 | `String.take(n)` counts UTF-16 code units: the result is a prefix that fits in `n` units, is the whole text exactly when that fits, and stops only where the next character would not fit |
| AdvancedTerminal.ProcessEntry | src/main/kotlin/com/github/disdjj/recorderjetbrains/listeners/AdvancedTerminalListener.kt:168-173 | The COMMAND entry of a finished process, its output cut by `take(1000)` in UTF-16 code units. ProcessEntryOutput states the bound |
| AdvancedTerminal.ProcessEntryOutput | src/main/kotlin/com/github/disdjj/recorderjetbrains/listeners/AdvancedTerminalListener.kt:164-174 | The recorded output starts the stripped buffer and fits in 1000 UTF-16 code units. It is the whole stripped text exactly when that fits; otherwise it stops only where the next character would not fit. Raw output that fits is kept whole |
| AdvancedTerminal.AttachAll | src/main/kotlin/com/github/disdjj/recorderjetbrains/listeners/AdvancedTerminalListener.kt:67-81 | The listener map after attaching to each descriptor in turn. AttachAllKeeps and AttachAllFresh state its contents |
| AdvancedTerminal.AttachAllKeeps | src/main/kotlin/com/github/disdjj/recorderjetbrains/listeners/AdvancedTerminalListener.kt:67-81 | Attaching adds exactly the running processes with handlers and keeps existing listeners |
| AdvancedTerminal.AttachAllFresh | src/main/kotlin/com/github/disdjj/recorderjetbrains/listeners/AdvancedTerminalListener.kt:89-99 | Each new process gets an empty listener for the first descriptor naming it |
| AdvancedTerminal.LiveHandlers | src/main/kotlin/com/github/disdjj/recorderjetbrains/listeners/AdvancedTerminalListener.kt:72-77 | The processes of descriptors with a handler that has not terminated |
| AdvancedTerminal.TerminationEntries | src/main/kotlin/com/github/disdjj/recorderjetbrains/listeners/AdvancedTerminalListener.kt:121-131 | The entries a termination records. TerminationEntriesSpec states them |
| AdvancedTerminal.TerminationEntriesSpec | src/main/kotlin/com/github/disdjj/recorderjetbrains/listeners/AdvancedTerminalListener.kt:121-131 | A termination records one entry exactly when the label is non-empty: a COMMAND with the start time, whose output starts the stripped buffer and fits in 1000 UTF-16 code units |
| AdvancedTerminal.UnstartedProcessRecordsNothing | src/main/kotlin/com/github/disdjj/recorderjetbrains/listeners/AdvancedTerminalListener.kt:96-106 | A process never reported as started has no label and records nothing |
| AdvancedTerminal.AdvancedTerminalListener.constructor | src/main/kotlin/com/github/disdjj/recorderjetbrains/listeners/AdvancedTerminalListener.kt:28-29 | No processes, not monitoring |
| AdvancedTerminal.AdvancedTerminalListener.StartMonitoring | src/main/kotlin/com/github/disdjj/recorderjetbrains/listeners/AdvancedTerminalListener.kt:31-45 | Monitoring afterwards; the map is the old one with the running processes attached in order |
| AdvancedTerminal.AdvancedTerminalListener.AttachToProcess | src/main/kotlin/com/github/disdjj/recorderjetbrains/listeners/AdvancedTerminalListener.kt:89-143 | An attached process is left alone; a new one gets a fresh listener |
| AdvancedTerminal.AdvancedTerminalListener.StopMonitoring | src/main/kotlin/com/github/disdjj/recorderjetbrains/listeners/AdvancedTerminalListener.kt:47-65 | Not monitoring, and the map is empty |
| AdvancedTerminal.AdvancedTerminalListener.StartNotified | src/main/kotlin/com/github/disdjj/recorderjetbrains/listeners/AdvancedTerminalListener.kt:101-106 | The process's start time and label are set from its display name |
| AdvancedTerminal.AdvancedTerminalListener.OnTextAvailable | src/main/kotlin/com/github/disdjj/recorderjetbrains/listeners/AdvancedTerminalListener.kt:108-119 | Text is appended to that process's buffer only while monitoring and recording; other processes are untouched |
| AdvancedTerminal.AdvancedTerminalListener.ProcessTerminated | src/main/kotlin/com/github/disdjj/recorderjetbrains/listeners/AdvancedTerminalListener.kt:121-138 | While monitoring and recording, the process's entries are recorded and the process is forgotten; otherwise the early return keeps it and records nothing |
| AdvancedTerminal.AdvancedTerminalListener.RecordCommand | src/main/kotlin/com/github/disdjj/recorderjetbrains/listeners/AdvancedTerminalListener.kt:164-181 | Appends one COMMAND entry with the output cut to 1000 UTF-16 code units, only while recording |

## Left out

- The UI is not part of this model: the status bar widget, its factory, the actions and the dialogs.
- I/O: reading `.gitignore` and the history file, writing `operation.json`, and running `git diff` are inputs or outputs of the model. Gson's pretty-printed text is modelled as a list of JSON objects, not as characters.
- AdvancedTerminal.ProcessEntry: a Dafny string cannot hold half of a surrogate pair. When the 1000-unit cut falls inside a pair, the source stores the lone high surrogate as the 1000th unit. The model drops that character, so the output is 999 units long. This also affects ProcessEntryOutput, TerminationEntriesSpec and AdvancedTerminalListener.RecordCommand.
- Character classes: `Char.isWhitespace`, `Char.isLetterOrDigit` and `lowercase()` are ASCII approximations. Unicode letters, digits and spaces beyond ASCII are not modelled.
- Concurrency: `CopyOnWriteArrayList`, the executor thread, `invokeLater` and process callbacks run one at a time and at once. Interleavings are not modelled, so neither is a recording state that changes between scheduling and running.
- Timestamps are unbounded integers. The overflow of `Long` arithmetic in the cache check is not modelled.
- GitIgnore.Compile: a backslash in a pattern is treated as a literal character. In the source it reaches the regex engine and escapes the next character. A `PatternSyntaxException` that would clear the rules therefore does not arise in the model. `!` negation is literal in the source too.
- HistoryPolling.TerminalCommandListener.CheckForNewCommands: the size and the lines come from one snapshot of the history file. The source reads the file twice, so lines appended between the reads are not modelled.
- HistoryPolling.TerminalCommandListener.StopMonitoring: the bounded wait for a running poll and `shutdownNow` are not modelled.
- FileOperations.Relativize: URIs are taken as already normalised and unencoded. Percent-encoding and `..` segments are not modelled.
- AdvancedTerminal.AdvancedTerminalListener.StopMonitoring: a `removeProcessListener` that throws still leaves a listener attached to the handler. The model drops it with the map. `setupProcessListener` does nothing in the source.
- SimpleTerminal.IsDescendantOf: the component tree is a parent map whose ids number parents before children. This states that the AWT containment tree has no cycles.
- `RecordCommandAction`, `TestRecorderAction` and `TestTerminalRecordingAction` only call the session's methods modelled above.

## Behaviour of the code worth knowing

- A process label comes from the display name. A name containing "Terminal" gives "terminal session". Otherwise a name containing "Run" gives the text after "Run ", trimmed, and failing that "Debug" gives the text after "Debug " (src/main/kotlin/com/github/disdjj/recorderjetbrains/listeners/AdvancedTerminalListener.kt:152-156). So a name such as "Run " with only blanks after the marker is labelled with the empty string, and its process records nothing.
- A process's recorded output is the first 1000 UTF-16 code units of the stripped output (src/main/kotlin/com/github/disdjj/recorderjetbrains/listeners/AdvancedTerminalListener.kt:172). A character outside the Basic Multilingual Plane counts as two units, so 600 emoji are cut to 500.
- `processTerminated` returns early when monitoring is off or the session is not recording (src/main/kotlin/com/github/disdjj/recorderjetbrains/listeners/AdvancedTerminalListener.kt:122). The `finally` that removes the process is not reached then, so the process stays in the map.
- `stopRecording` returns `false` both for an empty log and for a failed write (src/main/kotlin/com/github/disdjj/recorderjetbrains/services/RecorderService.kt:38-43).
- The history offset moves only when the file has grown (src/main/kotlin/com/github/disdjj/recorderjetbrains/listeners/TerminalCommandListener.kt:74-79). A file that shrinks leaves the offset where it was, so lines written below it are never recorded.
- `stopMonitoring` shuts the poller's executor down (src/main/kotlin/com/github/disdjj/recorderjetbrains/listeners/TerminalCommandListener.kt:62). A later `startMonitoring` schedules on the same executor, which refuses the task; the error is caught and logged (src/main/kotlin/com/github/disdjj/recorderjetbrains/listeners/TerminalCommandListener.kt:43-50), so polling does not resume.
- Processes attached when monitoring starts are already running (src/main/kotlin/com/github/disdjj/recorderjetbrains/listeners/AdvancedTerminalListener.kt:72-76). Such a process only records something if a start notification still reaches it (src/main/kotlin/com/github/disdjj/recorderjetbrains/listeners/AdvancedTerminalListener.kt:101-106, 128).
