/**
 * Command detection by polling the shell history file: the listener keeps
 * the line count it has seen, and each poll records the lines added since,
 * with zsh's `: timestamp:duration;` prefix removed and no output. The
 * history file's contents are an input to each poll; the scheduled
 * executor is reduced to a `Poll` method and a flag for its shutdown.
 */
module HistoryPolling {
  import opened Wrappers
  import opened Text
  import opened LogModel
  import Recorder

  // ---------------------------------------------------------------------
  // History lines

  /** `cleanHistoryLine`: a line starting with `:` that has a `;` becomes the
      text after its first `;`. */
  function CleanHistoryLine(line: string): string {
    if StartsWith(line, ":") && Contains(line, ";") then SubstringAfter(line, ";") else line
  }

  /** A zsh extended-history line loses exactly its metadata prefix (up to
      and including the first `;`); every other line is unchanged. */
  lemma CleanHistoryLineSpec(line: string)
    ensures StartsWith(line, ":") && Contains(line, ";") ==>
      exists i :: 0 < i < |line| && line[i] == ';' && (forall j :: 0 <= j < i ==> line[j] != ';')
                  && CleanHistoryLine(line) == line[i + 1..]
    ensures !(StartsWith(line, ":") && Contains(line, ";")) ==> CleanHistoryLine(line) == line
  {
    if StartsWith(line, ":") && Contains(line, ";") {
      var i := IndexOf(line, ";").value;
      assert OccursAt(line, ";", i);
      assert line[i] == line[i..i + 1][0];
      forall j | 0 <= j < i ensures line[j] != ';' {
        assert !OccursAt(line, ";", j);
        assert line[j..j + 1] == [line[j]];
      }
      assert line[0] == ':';
    }
  }

  /** The zsh example: `: 1690000000:0;git status` is `git status`. */
  lemma CleanZshExample(line: string)
    requires line == ": 1690000000:0;git status"
    ensures CleanHistoryLine(line) == "git status"
  {
    assert line[..1] == ":";
    assert OccursAt(line, ";", 14);
    forall j | 0 <= j < 14 ensures !OccursAt(line, ";", j) { assert line[j..j + 1][0] == line[j] != ';'; }
    assert IndexOf(line, ";") == Some(14);
  }

  /** Clean each line, then drop the blank results, keeping file order. */
  function CleanLines(lines: seq<string>): (r: seq<string>)
    ensures |r| <= |lines|
    ensures forall k :: 0 <= k < |r| ==> !IsBlank(r[k])
  {
    if lines == [] then []
    else
      var c := CleanHistoryLine(lines[0]);
      (if IsBlank(c) then [] else [c]) + CleanLines(lines[1..])
  }

  lemma {:induction false} CleanLinesAppend(a: seq<string>, b: seq<string>)
    ensures CleanLines(a + b) == CleanLines(a) + CleanLines(b)
    decreases |a|
  {
    if a == [] {
      assert a + b == b;
    } else {
      assert (a + b)[1..] == a[1..] + b;
      CleanLinesAppend(a[1..], b);
    }
  }

  /** A command comes out of `lines` exactly when it is the non-blank
      cleaned form of one of them. */
  lemma {:induction false} CleanLinesMembers(lines: seq<string>, x: string)
    ensures x in CleanLines(lines) <==> !IsBlank(x) && exists l :: l in lines && CleanHistoryLine(l) == x
    decreases |lines|
  {
    if lines != [] {
      CleanLinesMembers(lines[1..], x);
      if exists l :: l in lines && CleanHistoryLine(l) == x {
        var l :| l in lines && CleanHistoryLine(l) == x;
        if l != lines[0] { assert l in lines[1..]; }
      }
    }
  }

  /** What reading the history file gave. */
  datatype History = NoHistoryFile | Unreadable | HistoryLines(lines: seq<string>)

  /** `getCurrentHistorySize`: 0 when the file is absent or unreadable. */
  function HistorySize(h: History): nat {
    match h
    case HistoryLines(ls) => |ls|
    case _ => 0
  }

  /** `getNewHistoryCommands(from, to)`: the cleaned lines with index in
      `[from, min(to, size))`; empty when `from >= size`, when the file is
      missing or unreadable, and when `subList` would throw (a negative
      `from`, or `to` below `from`), since the exception is caught. */
  function NewHistoryCommands(h: History, from: int, to: int): (r: seq<string>)
    ensures h.HistoryLines? && 0 <= from <= to && from < |h.lines| ==>
      r == CleanLines(h.lines[from..if to < |h.lines| then to else |h.lines|])
    ensures !h.HistoryLines? || from >= |h.lines| ==> r == []
    ensures h.HistoryLines? && from < |h.lines| && (from < 0 || to < from) ==> r == []
  {
    match h
    case HistoryLines(ls) =>
      if from < |ls| then
        var end := if to < |ls| then to else |ls|;
        if 0 <= from <= end then CleanLines(ls[from..end]) else []
      else []
    case _ => []
  }

  /** New commands after a file grows by `added` lines are the cleaned added lines. */
  lemma NewCommandsAfterAppend(old_: seq<string>, added: seq<string>)
    requires added != []
    ensures NewHistoryCommands(HistoryLines(old_ + added), |old_|, |old_ + added|) == CleanLines(added)
  {
    assert (old_ + added)[|old_|..|old_ + added|] == added;
  }

  // ---------------------------------------------------------------------
  // Choosing the history file (`getHistoryFile`)

  /** `File(parent, child)`. */
  datatype HistoryPath = HistoryPath(parent: string, child: string)

  const PowerShellHistory := "Microsoft/Windows/PowerShell/PSReadLine/ConsoleHost_history.txt"

  /** `$SHELL` (empty when unset) names none of the three shells. */
  predicate NoShellMatch(shell: Option<string>) {
    !Contains(shell.GetOr(""), "bash") && !Contains(shell.GetOr(""), "zsh") && !Contains(shell.GetOr(""), "fish")
  }

  /** The shell name is matched against `bash`, then `zsh`, then `fish`; then the OS for
      Windows; otherwise `.bash_history`. A missing `os.name` at that point
      throws, and the answer is no file. */
  function HistoryFile(shell: Option<string>, osName: Option<string>, userHome: string, appData: Option<string>)
    : (r: Option<HistoryPath>)
    ensures Contains(shell.GetOr(""), "bash") ==> r == Some(HistoryPath(userHome, ".bash_history"))
    ensures !Contains(shell.GetOr(""), "bash") && Contains(shell.GetOr(""), "zsh")
            ==> r == Some(HistoryPath(userHome, ".zsh_history"))
    ensures !Contains(shell.GetOr(""), "bash") && !Contains(shell.GetOr(""), "zsh") && Contains(shell.GetOr(""), "fish")
            ==> r == Some(HistoryPath(userHome, ".local/share/fish/fish_history"))
    ensures NoShellMatch(shell) && osName.Some? && Contains(ToLower(osName.value), "windows")
            ==> r == Some(HistoryPath(appData.GetOr(userHome), PowerShellHistory))
    ensures NoShellMatch(shell) && osName.Some? && !Contains(ToLower(osName.value), "windows")
            ==> r == Some(HistoryPath(userHome, ".bash_history"))
    ensures r.Some? && r.value.child == PowerShellHistory ==>
            NoShellMatch(shell) && osName.Some? && Contains(ToLower(osName.value), "windows")
    ensures r.None? <==> osName.None? && NoShellMatch(shell)
  {
    var sh := shell.GetOr("");
    if Contains(sh, "bash") then Some(HistoryPath(userHome, ".bash_history"))
    else if Contains(sh, "zsh") then Some(HistoryPath(userHome, ".zsh_history"))
    else if Contains(sh, "fish") then Some(HistoryPath(userHome, ".local/share/fish/fish_history"))
    else if osName.None? then None
    else if Contains(ToLower(osName.value), "windows") then Some(HistoryPath(appData.GetOr(userHome), PowerShellHistory))
    else Some(HistoryPath(userHome, ".bash_history"))
  }

  // ---------------------------------------------------------------------
  // The listener

  /** The entry a history command becomes: no output is captured. */
  function HistoryEntry(now: int, command: string): LogEntry {
    Bare(now, Command).(command := Some(command), output := Some(""))
  }

  function HistoryEntries(now: int, commands: seq<string>): (r: seq<LogEntry>)
    ensures |r| == |commands|
    ensures forall k :: 0 <= k < |r| ==> r[k] == HistoryEntry(now, commands[k])
  {
    seq(|commands|, k requires 0 <= k < |commands| => HistoryEntry(now, commands[k]))
  }

  /** Every entry recorded from the history is a command with empty output. */
  lemma HistoryEntriesShape(now: int, commands: seq<string>)
    ensures forall k :: 0 <= k < |commands| ==>
      var e := HistoryEntries(now, commands)[k];
      WellShaped(e) && e.command == Some(commands[k]) && e.output == Some("")
  {
  }

  /** The offset after a check: it moves only forward, to the current size. */
  function NextSize(last: int, h: History): int {
    if HistorySize(h) > last then HistorySize(h) else last
  }

  /** The entries a check appends. */
  function Recorded(last: int, h: History, now: int, recording: bool): seq<LogEntry> {
    if HistorySize(h) > last && recording
    then HistoryEntries(now, NewHistoryCommands(h, last, HistorySize(h)))
    else []
  }

  class TerminalCommandListener {
    const recorder: Recorder.RecorderService
    var isMonitoring: bool
    var lastHistorySize: int
    /** Whether the polling task has been scheduled. */
    var scheduled: bool
    /** `executor.shutdown()` has run: the executor never runs a task again. */
    var executorShutdown: bool

    constructor (recorder: Recorder.RecorderService)
      ensures this.recorder == recorder
      ensures !isMonitoring && lastHistorySize == 0 && !scheduled && !executorShutdown
    {
      this.recorder := recorder;
      isMonitoring := false;
      lastHistorySize := 0;
      scheduled := false;
      executorShutdown := false;
    }

    /** Takes the current size as the baseline and schedules polling; an
        executor that was shut down rejects the scheduled poll. */
    method StartMonitoring(h: History)
      modifies this
      ensures isMonitoring && lastHistorySize == HistorySize(h)
      ensures scheduled == (old(scheduled) || !old(executorShutdown))
      ensures executorShutdown == old(executorShutdown)
    {
      isMonitoring := true;
      lastHistorySize := HistorySize(h);
      if !executorShutdown {
        scheduled := true;
      }
    }

    method StopMonitoring()
      modifies this
      ensures !isMonitoring && executorShutdown
      ensures lastHistorySize == old(lastHistorySize) && scheduled == old(scheduled)
    {
      isMonitoring := false;
      executorShutdown := true;
    }

    /** One run of the scheduled task. */
    method Poll(h: History, now: int)
      modifies this, recorder
      ensures isMonitoring == old(isMonitoring) && scheduled == old(scheduled)
      ensures executorShutdown == old(executorShutdown)
      ensures recorder.isRecording == old(recorder.isRecording)
      ensures !(old(scheduled) && !old(executorShutdown) && old(isMonitoring)) ==>
        lastHistorySize == old(lastHistorySize) && recorder.operationLog == old(recorder.operationLog)
      ensures old(scheduled) && !old(executorShutdown) && old(isMonitoring) ==>
        lastHistorySize == NextSize(old(lastHistorySize), h)
        && recorder.operationLog == old(recorder.operationLog) + Recorded(old(lastHistorySize), h, now, old(recorder.isRecording))
    {
      if scheduled && !executorShutdown && isMonitoring {
        CheckForNewCommands(h, now);
      }
    }

    /** `checkForNewCommands`: when the file grew, record each new command
        once, in order, and advance the offset. */
    method CheckForNewCommands(h: History, now: int)
      modifies this, recorder
      ensures isMonitoring == old(isMonitoring) && scheduled == old(scheduled)
      ensures executorShutdown == old(executorShutdown)
      ensures recorder.isRecording == old(recorder.isRecording)
      ensures lastHistorySize == NextSize(old(lastHistorySize), h)
      ensures recorder.operationLog == old(recorder.operationLog) + Recorded(old(lastHistorySize), h, now, old(recorder.isRecording))
    {
      var currentHistorySize := HistorySize(h);
      if currentHistorySize > lastHistorySize {
        var newCommands := NewHistoryCommands(h, lastHistorySize, currentHistorySize);
        var i := 0;
        while i < |newCommands|
          invariant 0 <= i <= |newCommands|
          invariant recorder.isRecording == old(recorder.isRecording)
          invariant lastHistorySize == old(lastHistorySize)
          invariant isMonitoring == old(isMonitoring) && scheduled == old(scheduled)
          invariant executorShutdown == old(executorShutdown)
          invariant recorder.operationLog == old(recorder.operationLog)
                    + (if recorder.isRecording then HistoryEntries(now, newCommands[..i]) else [])
        {
          RecordCommand(newCommands[i], now);
          assert newCommands[..i + 1] == newCommands[..i] + [newCommands[i]];
          assert HistoryEntries(now, newCommands[..i + 1]) == HistoryEntries(now, newCommands[..i]) + [HistoryEntry(now, newCommands[i])];
          i := i + 1;
        }
        assert newCommands[..i] == newCommands;
        lastHistorySize := currentHistorySize;
      }
    }

    /** `recordCommand`: a command entry with empty output, if still recording. */
    method RecordCommand(command: string, now: int)
      modifies recorder
      ensures recorder.isRecording == old(recorder.isRecording)
      ensures recorder.operationLog == if old(recorder.isRecording)
        then old(recorder.operationLog) + [HistoryEntry(now, command)] else old(recorder.operationLog)
    {
      if recorder.isRecording {
        recorder.AddLogEntry(HistoryEntry(now, command));
      }
    }
  }

  /** The offset never decreases, and it changes only to a larger current size. */
  lemma NextSizeMonotone(last: int, h: History)
    ensures NextSize(last, h) >= last
    ensures NextSize(last, h) != last ==> NextSize(last, h) == HistorySize(h) > last
  {
  }

  /** Polling twice over an unchanged file records the new lines only once. */
  lemma NoDoubleRecording(last: int, h: History, now: int, recording: bool)
    ensures Recorded(NextSize(last, h), h, now, recording) == []
  {
  }

  /** One poll after lines were appended to the history records exactly the
      cleaned, non-blank new lines, in order. */
  method PollAfterAppend(old_: seq<string>, added: seq<string>, now: int) returns (entries: seq<LogEntry>)
    ensures entries == HistoryEntries(now, CleanLines(added))
  {
    var recorder := new Recorder.RecorderService();
    recorder.StartRecording();
    var listener := new TerminalCommandListener(recorder);
    listener.StartMonitoring(HistoryLines(old_));
    listener.Poll(HistoryLines(old_ + added), now);
    if added != [] {
      NewCommandsAfterAppend(old_, added);
    }
    entries := recorder.operationLog;
  }

  /** Once stopped, the listener never polls again: `stopMonitoring` shuts
      the executor down and a later `startMonitoring` cannot schedule on it. */
  method RestartDoesNotPoll(before: History, after: History, now: int) returns (recorded: nat)
    ensures recorded == 0
  {
    var recorder := new Recorder.RecorderService();
    recorder.StartRecording();
    var listener := new TerminalCommandListener(recorder);
    listener.StartMonitoring(before);
    listener.StopMonitoring();
    listener.StartMonitoring(before);
    listener.Poll(after, now);
    recorded := recorder.LogCount();
  }
}
