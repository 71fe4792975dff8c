/**
 * The process-based listener: for every run configuration or terminal
 * process already running when monitoring starts, it keeps an output
 * buffer, derives a command label from the tab's display name when the
 * process starts, and on termination records one COMMAND entry with the
 * ANSI-stripped output cut to 1000 characters. Process handlers are named
 * by ids; the IDE's running descriptors are an input.
 */
module AdvancedTerminal {
  import opened Wrappers
  import opened Text
  import opened LogModel
  import AnsiStripper
  import Recorder
  /** Recorded output is cut to this many UTF-16 code units. */
  /** Recorded output is cut to this many characters. */
  const MaxOutput: nat := 1000

  type ProcessId = nat

  /** The state of one attached `ProcessAdapter`, with the display name of
      the descriptor it was attached for. */
  datatype ProcessListener = ProcessListener(
    outputBuffer: string,
    currentCommand: string,
    commandStartTime: int,
    displayName: Option<string>)

  /** A running content descriptor: its process handler (if any), whether
      that process has terminated, and its display name. */
  datatype Descriptor = Descriptor(handler: Option<ProcessId>, terminated: bool, displayName: Option<string>)

  /** `extractCommandFromProcess`: the label recorded for a process. */
  function ExtractCommand(displayName: Option<string>): string {
    var name := displayName.GetOr("");
    if Contains(name, "Terminal") then "terminal session"
    else if Contains(name, "Run") then Trim(SubstringAfter(name, "Run "))
    else if Contains(name, "Debug") then Trim(SubstringAfter(name, "Debug "))
    else if name == [] then "unknown command"
    else name
  }

  /** The label is empty exactly when a Run or Debug name has nothing but
      blanks after its marker (or is blank itself when the marker is absent). */
  lemma ExtractCommandEmptyIff(displayName: Option<string>)
    ensures var name := displayName.GetOr("");
      ExtractCommand(displayName) == [] <==>
        !Contains(name, "Terminal")
        && ((Contains(name, "Run") && IsBlank(SubstringAfter(name, "Run ")))
            || (!Contains(name, "Run") && Contains(name, "Debug") && IsBlank(SubstringAfter(name, "Debug "))))
  {
  }

  /** A label is never longer than the display name, except for the two
      fixed labels. */
  lemma ExtractCommandLength(displayName: Option<string>)
    ensures var name := displayName.GetOr("");
      var command := ExtractCommand(displayName);
      command == "terminal session" || command == "unknown command" || |command| <= |name|
  {
    var name := displayName.GetOr("");
    if !Contains(name, "Terminal") && (Contains(name, "Run") || Contains(name, "Debug")) {
      var marker := if Contains(name, "Run") then "Run " else "Debug ";
      SubstringAfterShorter(name, marker);
    }
  }

  lemma SubstringAfterShorter(s: string, d: string)
    ensures |SubstringAfter(s, d)| <= |s|
  {
  }

  /** Without a display name the label is "unknown command". */
  lemma MissingNameIsUnknown()
    ensures ExtractCommand(None) == "unknown command"
  {
    assert !Contains("", "Terminal") by { NotInEmpty("Terminal"); }
    assert !Contains("", "Run") by { NotInEmpty("Run"); }
    assert !Contains("", "Debug") by { NotInEmpty("Debug"); }
  }

  lemma NotInEmpty(t: string)
    requires t != []
    ensures !Contains("", t)
  {
  }

  /** `Run main.py` is labelled with what follows `Run `. */
  lemma RunLabel(rest: string)
    requires rest != [] && !IsWhitespace(rest[0]) && !IsWhitespace(rest[|rest| - 1])
    requires !Contains("Run " + rest, "Terminal")
    ensures ExtractCommand(Some("Run " + rest)) == rest
  {
    var name := "Run " + rest;
    assert OccursAt(name, "Run", 0) && OccursAt(name, "Run ", 0);
    assert IndexOf(name, "Run ") == Some(0);
    assert SubstringAfter(name, "Run ") == rest;
    TrimUnchanged(rest);
  }

  lemma TrimUnchanged(s: string)
    requires s != [] && !IsWhitespace(s[0]) && !IsWhitespace(s[|s| - 1])
    ensures Trim(s) == s
  {
  }

  /** The entry recorded for a finished process. */
  function ProcessEntry(command: string, cleanOutput: string, timestamp: int): LogEntry {
    Bare(timestamp, Command).(command := Some(command), output := Some(Take(cleanOutput, MaxOutput)))
  }

  /** The recorded output is the start of the ANSI-stripped buffer and fits
      in 1000 UTF-16 code units; it is the whole stripped text exactly when
      that fits, and otherwise it stops only where the next character would
      not fit. Raw output that fits is therefore kept whole after stripping. */
  lemma ProcessEntryOutput(command: string, buffer: string, timestamp: int)
    ensures var e := ProcessEntry(command, AnsiStripper.StripAnsi(buffer), timestamp);
      var clean := AnsiStripper.StripAnsi(buffer);
      var out := e.output.value;
      WellShaped(e) && e.command == Some(command)
      && Utf16Length(out) <= MaxOutput && StartsWith(clean, out)
      && (Utf16Length(clean) <= MaxOutput <==> out == clean)
      && (|out| < |clean| ==> MaxOutput < Utf16Length(out) + Utf16Width(clean[|out|]))
      && (Utf16Length(buffer) <= MaxOutput ==> out == clean)
  {
    AnsiStripper.StripIsSubsequence(buffer);
    AnsiStripper.SubsequenceUtf16(AnsiStripper.StripAnsi(buffer), buffer);
  }

  class AdvancedTerminalListener {
    const recorder: Recorder.RecorderService
    var processListeners: map<ProcessId, ProcessListener>
    var isMonitoring: bool

    constructor (recorder: Recorder.RecorderService)
      ensures this.recorder == recorder
      ensures processListeners == map[] && !isMonitoring
    {
      this.recorder := recorder;
      processListeners := map[];
      isMonitoring := false;
    }

    /** `startMonitoring`: attaches to every live process among the running
        descriptors, in order; processes already attached keep their listener. */
    method StartMonitoring(descriptors: seq<Descriptor>, now: int)
      modifies this
      ensures isMonitoring
      ensures processListeners == AttachAll(old(processListeners), descriptors, now)
    {
      isMonitoring := true;
      var i := 0;
      while i < |descriptors|
        invariant 0 <= i <= |descriptors|
        invariant isMonitoring
        invariant processListeners == AttachAll(old(processListeners), descriptors[..i], now)
      {
        var d := descriptors[i];
        assert descriptors[..i + 1][..i] == descriptors[..i];
        if d.handler.Some? && !d.terminated {
          AttachToProcess(d.handler.value, d.displayName, now);
        }
        i := i + 1;
      }
      assert descriptors[..i] == descriptors;
    }

    /** `attachToProcess`: a no-op for a process already in the map. */
    method AttachToProcess(handler: ProcessId, displayName: Option<string>, now: int)
      modifies this
      ensures isMonitoring == old(isMonitoring)
      ensures handler in old(processListeners) ==> processListeners == old(processListeners)
      ensures handler !in old(processListeners) ==>
        processListeners == old(processListeners)[handler := Fresh(displayName, now)]
    {
      if handler in processListeners {
        return;
      }
      processListeners := processListeners[handler := Fresh(displayName, now)];
    }

    /** `stopMonitoring`: detaches from every process and empties the map. */
    method StopMonitoring()
      modifies this
      ensures !isMonitoring && processListeners == map[]
    {
      isMonitoring := false;
      processListeners := map[];
    }

    /** `startNotified`: resets the start time and derives the label. */
    method StartNotified(handler: ProcessId, now: int)
      modifies this
      ensures isMonitoring == old(isMonitoring)
      ensures handler !in old(processListeners) ==> processListeners == old(processListeners)
      ensures handler in old(processListeners) ==>
        processListeners == old(processListeners)[handler := old(processListeners[handler]).(
          commandStartTime := now, currentCommand := ExtractCommand(old(processListeners[handler]).displayName))]
    {
      if handler in processListeners {
        var l := processListeners[handler];
        processListeners := processListeners[handler := l.(commandStartTime := now, currentCommand := ExtractCommand(l.displayName))];
      }
    }

    /** `onTextAvailable`: appends the text while monitoring and recording. */
    method OnTextAvailable(handler: ProcessId, text: Option<string>)
      modifies this
      ensures isMonitoring == old(isMonitoring) && processListeners.Keys == old(processListeners.Keys)
      ensures forall p :: p in processListeners && p != handler ==> processListeners[p] == old(processListeners[p])
      ensures handler in processListeners ==>
        var before := old(processListeners[handler]);
        processListeners[handler] == before.(outputBuffer := before.outputBuffer
          + (if isMonitoring && recorder.isRecording && text.Some? then text.value else []))
    {
      if handler !in processListeners || !isMonitoring || !recorder.isRecording {
        return;
      }
      if text.Some? {
        var l := processListeners[handler];
        processListeners := processListeners[handler := l.(outputBuffer := l.outputBuffer + text.value)];
      }
    }

    /** `processTerminated`: while monitoring and recording, records the
        process's command (if it has a label) and forgets the process;
        otherwise the early return leaves the process in the map. */
    method ProcessTerminated(handler: ProcessId)
      modifies this, recorder
      ensures isMonitoring == old(isMonitoring)
      ensures recorder.isRecording == old(recorder.isRecording)
      ensures !(handler in old(processListeners) && old(isMonitoring) && old(recorder.isRecording)) ==>
        processListeners == old(processListeners) && recorder.operationLog == old(recorder.operationLog)
      ensures handler in old(processListeners) && old(isMonitoring) && old(recorder.isRecording) ==>
        processListeners == old(processListeners) - {handler}
        && recorder.operationLog == old(recorder.operationLog) + TerminationEntries(old(processListeners[handler]))
    {
      if handler !in processListeners {
        return;
      }
      if !isMonitoring || !recorder.isRecording {
        return;
      }
      var l := processListeners[handler];
      var cleanOutput := AnsiStripper.StripAnsi(l.outputBuffer);
      if l.currentCommand != [] {
        RecordCommand(l.currentCommand, cleanOutput, l.commandStartTime);
      }
      processListeners := processListeners - {handler};
    }

    /** `recordCommand`: one COMMAND entry with the output cut to 1000 characters. */
    method RecordCommand(command: string, output: string, timestamp: int)
      modifies recorder
      ensures recorder.isRecording == old(recorder.isRecording)
      ensures recorder.operationLog == old(recorder.operationLog)
        + (if old(recorder.isRecording) then [ProcessEntry(command, output, timestamp)] else [])
    {
      if recorder.isRecording {
        recorder.AddLogEntry(ProcessEntry(command, output, timestamp));
      }
    }
  }

  /** A listener as `attachToProcess` creates it. */
  function Fresh(displayName: Option<string>, now: int): ProcessListener {
    ProcessListener([], [], now, displayName)
  }

  predicate IsLiveFor(d: Descriptor, p: ProcessId) {
    d.handler == Some(p) && !d.terminated
  }

  /** Descriptor `i` is the first live one for process `p`. */
  predicate FirstLive(descriptors: seq<Descriptor>, i: int, p: ProcessId) {
    0 <= i < |descriptors| && IsLiveFor(descriptors[i], p)
    && forall j :: 0 <= j < i ==> !IsLiveFor(descriptors[j], p)
  }

  /** The processes of the descriptors that have a handler and are still running. */
  function LiveHandlers(descriptors: seq<Descriptor>): (r: set<ProcessId>)
    ensures forall p :: p in r <==> exists i :: 0 <= i < |descriptors| && IsLiveFor(descriptors[i], p)
  {
    set i, p | 0 <= i < |descriptors| && p == descriptors[i].handler.GetOr(0) && IsLiveFor(descriptors[i], p) :: p
  }

  /** `attachToProcess` for one descriptor, if it has a live process. */
  function AttachOne(m: map<ProcessId, ProcessListener>, d: Descriptor, now: int): map<ProcessId, ProcessListener> {
    if d.handler.Some? && !d.terminated && d.handler.value !in m then m[d.handler.value := Fresh(d.displayName, now)] else m
  }

  /** `monitorExistingProcesses`: the descriptors attached in order. */
  function AttachAll(m: map<ProcessId, ProcessListener>, descriptors: seq<Descriptor>, now: int): map<ProcessId, ProcessListener>
    decreases |descriptors|
  {
    if descriptors == [] then m
    else AttachOne(AttachAll(m, descriptors[..|descriptors| - 1], now), descriptors[|descriptors| - 1], now)
  }

  /** Attaching adds exactly the live processes and keeps every listener
      that was already there. */
  lemma {:induction false} AttachAllKeeps(m: map<ProcessId, ProcessListener>, descriptors: seq<Descriptor>, now: int)
    ensures AttachAll(m, descriptors, now).Keys == m.Keys + LiveHandlers(descriptors)
    ensures forall p :: p in m ==> AttachAll(m, descriptors, now)[p] == m[p]
    decreases |descriptors|
  {
    if descriptors != [] {
      var n := |descriptors| - 1;
      AttachAllKeeps(m, descriptors[..n], now);
      LiveHandlersStep(descriptors, n);
      assert descriptors[..n + 1] == descriptors;
    }
  }

  /** Each newly attached process gets a fresh listener for the first
      descriptor that names it. */
  lemma {:induction false} AttachAllFresh(m: map<ProcessId, ProcessListener>, descriptors: seq<Descriptor>, now: int, p: ProcessId)
    requires p in AttachAll(m, descriptors, now) && p !in m
    ensures exists i :: FirstLive(descriptors, i, p) && AttachAll(m, descriptors, now)[p] == Fresh(descriptors[i].displayName, now)
    decreases |descriptors|
  {
    var n := |descriptors| - 1;
    var init := descriptors[..n];
    var before := AttachAll(m, init, now);
    if p in before {
      AttachAllFresh(m, init, now, p);
      var i :| FirstLive(init, i, p) && before[p] == Fresh(init[i].displayName, now);
      assert forall j :: 0 <= j <= i ==> init[j] == descriptors[j];
      assert FirstLive(descriptors, i, p);
    } else {
      AttachAllKeeps(m, init, now);
      FirstLiveStep(descriptors, n, p);
    }
  }

  lemma LiveHandlersStep(descriptors: seq<Descriptor>, i: nat)
    requires i < |descriptors|
    ensures LiveHandlers(descriptors[..i + 1]) == LiveHandlers(descriptors[..i])
      + (if descriptors[i].handler.Some? && !descriptors[i].terminated then {descriptors[i].handler.value} else {})
  {
    var a := descriptors[..i];
    var b := descriptors[..i + 1];
    assert forall j :: 0 <= j < i ==> b[j] == a[j];
    forall p | p in LiveHandlers(b) ensures p in LiveHandlers(a) || IsLiveFor(descriptors[i], p) {
      var j :| 0 <= j < |b| && IsLiveFor(b[j], p);
      if j < i { assert IsLiveFor(a[j], p); }
    }
    forall p | p in LiveHandlers(a) ensures p in LiveHandlers(b) {
      var j :| 0 <= j < |a| && IsLiveFor(a[j], p);
      assert IsLiveFor(b[j], p);
    }
    if descriptors[i].handler.Some? && !descriptors[i].terminated {
      assert IsLiveFor(b[i], descriptors[i].handler.value);
    }
  }

  /** A live descriptor whose process is not yet among the earlier ones is the first for it. */
  lemma FirstLiveStep(descriptors: seq<Descriptor>, i: nat, p: ProcessId)
    requires i < |descriptors| && IsLiveFor(descriptors[i], p)
    requires p !in LiveHandlers(descriptors[..i])
    ensures FirstLive(descriptors, i, p)
  {
    forall j | 0 <= j < i ensures !IsLiveFor(descriptors[j], p) {
      assert descriptors[..i][j] == descriptors[j];
    }
  }

  /** What a termination adds to the log for a listener. */
  function TerminationEntries(l: ProcessListener): seq<LogEntry> {
    if l.currentCommand != [] then [ProcessEntry(l.currentCommand, AnsiStripper.StripAnsi(l.outputBuffer), l.commandStartTime)]
    else []
  }

  /** A termination records at most one entry: a well-formed command whose
      output is the start of the ANSI-stripped buffer, at most 1000 UTF-16
      code units long. */
  lemma TerminationEntriesSpec(l: ProcessListener)
    ensures |TerminationEntries(l)| == if l.currentCommand == [] then 0 else 1
    ensures forall e :: e in TerminationEntries(l) ==>
      WellShaped(e) && e.logType == Command && e.command == Some(l.currentCommand)
      && e.timestamp == l.commandStartTime
      && Utf16Length(e.output.value) <= MaxOutput && StartsWith(AnsiStripper.StripAnsi(l.outputBuffer), e.output.value)
  {
    ProcessEntryOutput(l.currentCommand, l.outputBuffer, l.commandStartTime);
  }

  /** A process that was never reported as started has no label, so its
      termination records nothing. */
  lemma UnstartedProcessRecordsNothing(displayName: Option<string>, now: int, output: string)
    ensures TerminationEntries(Fresh(displayName, now).(outputBuffer := output)) == []
  {
  }
}
