/**
 * The recording session: a two-state machine (`isRecording`) that owns the
 * append-only operation log, the builders of each kind of entry, and the
 * stop-and-save contract. Writing `operation.json` is abstracted: the base
 * path and whether the write succeeds are inputs, and `StopRecording`
 * returns the document it hands to the writer.
 */
module Recorder {
  import opened Wrappers
  import opened LogModel
  import AnsiStripper

  // ---------------------------------------------------------------------
  // Entry builders (`addCommandEntry`, `addFile*Entry`)

  function CommandEntry(now: int, command: string, output: string): LogEntry {
    Bare(now, Command).(command := Some(command), output := Some(AnsiStripper.StripAnsi(output)))
  }

  function FileCreateEntry(now: int, path: string): LogEntry {
    Bare(now, FileCreate).(path := Some(path), data := Some(""))
  }

  function FileDeleteEntry(now: int, path: string): LogEntry {
    Bare(now, FileDelete).(path := Some(path), data := Some(""))
  }

  function FileDiffEntry(now: int, path: string, diff: string): LogEntry {
    Bare(now, FileDiff).(path := Some(path), data := Some(diff))
  }

  function FileContentEntry(now: int, path: string, content: string): LogEntry {
    Bare(now, FileContent).(path := Some(path), data := Some(content))
  }

  /** Every builder gives an entry of its own kind, carrying the fields that
      kind needs and no others; the command is stored as given and the output
      with every control sequence removed. */
  lemma BuildersWellShaped(now: int, path: string, command: string, output: string, text: string)
    ensures WellShaped(CommandEntry(now, command, output))
    ensures CommandEntry(now, command, output).command == Some(command)
    ensures CommandEntry(now, command, output).output.Some?
    ensures !AnsiStripper.ContainsAnsi(output) ==> CommandEntry(now, command, output).output == Some(output)
    ensures |CommandEntry(now, command, output).output.value| <= |output|
    ensures WellShaped(FileCreateEntry(now, path)) && FileCreateEntry(now, path).data == Some("")
    ensures WellShaped(FileDeleteEntry(now, path)) && FileDeleteEntry(now, path).data == Some("")
    ensures WellShaped(FileDiffEntry(now, path, text)) && FileDiffEntry(now, path, text).data == Some(text)
    ensures WellShaped(FileContentEntry(now, path, text)) && FileContentEntry(now, path, text).data == Some(text)
  {
    if !AnsiStripper.ContainsAnsi(output) {
      AnsiStripper.StripWithoutAnsi(output);
    }
  }

  /** The five builders give the five kinds, so their entries are told apart
      by `type` alone. */
  lemma BuildersDistinctKinds(now: int, path: string, command: string, output: string, text: string)
    ensures TypeName(CommandEntry(now, command, output).logType) == "COMMAND"
    ensures TypeName(FileCreateEntry(now, path).logType) == "FILE_CREATE"
    ensures TypeName(FileDeleteEntry(now, path).logType) == "FILE_DELETE"
    ensures TypeName(FileDiffEntry(now, path, text).logType) == "FILE_DIFF"
    ensures TypeName(FileContentEntry(now, path, text).logType) == "FILE_CONTENT"
  {
  }

  // ---------------------------------------------------------------------
  // The session

  class RecorderService {
    var isRecording: bool
    var operationLog: seq<LogEntry>

    constructor ()
      ensures !isRecording && operationLog == []
    {
      isRecording := false;
      operationLog := [];
    }

    /** `getLogCount`. */
    function LogCount(): nat
      reads this
    {
      |operationLog|
    }

    /** Arms the session and wipes the log, also when already armed. */
    method StartRecording()
      modifies this
      ensures isRecording && operationLog == []
    {
      isRecording := true;
      operationLog := [];
    }

    /** Disarms. An empty log is not saved (`false`); otherwise the log is
        serialised and written to `operation.json` under the base path, and
        the result is whether that succeeded. The log itself is kept. */
    method StopRecording(basePath: Option<string>, writeSucceeds: bool)
      returns (saved: bool, document: Option<seq<JsonObject>>)
      modifies this
      ensures !isRecording && operationLog == old(operationLog)
      ensures saved <==> old(operationLog) != [] && basePath.Some? && writeSucceeds
      ensures document == if old(operationLog) != [] && basePath.Some?
                          then Some(Serialize(old(operationLog))) else None
    {
      isRecording := false;
      if operationLog == [] {
        return false, None;
      }
      saved, document := SaveOperationLog(basePath, writeSucceeds);
    }

    /** `saveOperationLog`: no base path means no file; a failed write is `false`. */
    method SaveOperationLog(basePath: Option<string>, writeSucceeds: bool)
      returns (saved: bool, document: Option<seq<JsonObject>>)
      ensures saved <==> basePath.Some? && writeSucceeds
      ensures document == if basePath.Some? then Some(Serialize(operationLog)) else None
    {
      if basePath.None? {
        return false, None;
      }
      document := Some(Serialize(operationLog));
      saved := writeSucceeds;
    }

    /** Appends exactly one entry while recording; otherwise nothing changes. */
    method AddLogEntry(entry: LogEntry)
      modifies this
      ensures isRecording == old(isRecording)
      ensures operationLog == if old(isRecording) then old(operationLog) + [entry] else old(operationLog)
    {
      if isRecording {
        operationLog := operationLog + [entry];
      }
    }

    method AddCommandEntry(now: int, command: string, output: string)
      modifies this
      ensures isRecording == old(isRecording)
      ensures operationLog == if old(isRecording) then old(operationLog) + [CommandEntry(now, command, output)]
                              else old(operationLog)
    {
      AddLogEntry(CommandEntry(now, command, output));
    }

    method AddFileCreateEntry(now: int, path: string)
      modifies this
      ensures isRecording == old(isRecording)
      ensures operationLog == if old(isRecording) then old(operationLog) + [FileCreateEntry(now, path)]
                              else old(operationLog)
    {
      AddLogEntry(FileCreateEntry(now, path));
    }

    method AddFileDeleteEntry(now: int, path: string)
      modifies this
      ensures isRecording == old(isRecording)
      ensures operationLog == if old(isRecording) then old(operationLog) + [FileDeleteEntry(now, path)]
                              else old(operationLog)
    {
      AddLogEntry(FileDeleteEntry(now, path));
    }

    method AddFileDiffEntry(now: int, path: string, diff: string)
      modifies this
      ensures isRecording == old(isRecording)
      ensures operationLog == if old(isRecording) then old(operationLog) + [FileDiffEntry(now, path, diff)]
                              else old(operationLog)
    {
      AddLogEntry(FileDiffEntry(now, path, diff));
    }

    method AddFileContentEntry(now: int, path: string, content: string)
      modifies this
      ensures isRecording == old(isRecording)
      ensures operationLog == if old(isRecording) then old(operationLog) + [FileContentEntry(now, path, content)]
                              else old(operationLog)
    {
      AddLogEntry(FileContentEntry(now, path, content));
    }
  }

  // ---------------------------------------------------------------------
  // Sessions as the engine's clients drive them

  /** Start, add one command, count: one entry. */
  method RecordOneCommand(now: int) returns (recording: bool, count: nat)
    ensures recording && count == 1
  {
    var service := new RecorderService();
    service.StartRecording();
    service.AddCommandEntry(now, "ls -la", "total 8");
    recording, count := service.isRecording, service.LogCount();
  }

  /** Start then stop at once: nothing is written and the answer is `false`. */
  method StopWithoutEntries(basePath: Option<string>, writeSucceeds: bool)
    returns (saved: bool, document: Option<seq<JsonObject>>)
    ensures !saved && document.None?
  {
    var service := new RecorderService();
    service.StartRecording();
    saved, document := service.StopRecording(basePath, writeSucceeds);
  }

  /** One command then stop: saved, and the file holds one object of type `COMMAND`. */
  method StopWithOneCommand(now: int, basePath: string)
    returns (saved: bool, document: Option<seq<JsonObject>>)
    ensures saved && document.Some? && |document.value| == 1
    ensures LookupString(document.value[0], "type") == Some("COMMAND")
  {
    var service := new RecorderService();
    service.StartRecording();
    service.AddCommandEntry(now, "ls", "");
    saved, document := service.StopRecording(Some(basePath), true);
    JsonRoundTrip(CommandEntry(now, "ls", ""));
  }

  /** Entries offered before the start or after the stop never reach the log;
      re-arming drops what was there. */
  method DiscardOutsideSession(e: LogEntry, basePath: Option<string>)
    returns (beforeStart: nat, afterRestart: nat, afterStop: nat)
    ensures beforeStart == 0 && afterRestart == 0 && afterStop == 1
  {
    var service := new RecorderService();
    service.AddLogEntry(e);
    beforeStart := service.LogCount();
    service.StartRecording();
    service.AddLogEntry(e);
    service.StartRecording();
    afterRestart := service.LogCount();
    service.AddLogEntry(e);
    var _, _ := service.StopRecording(basePath, false);
    service.AddLogEntry(e);
    afterStop := service.LogCount();
  }
}
