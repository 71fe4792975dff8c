/**
 * The keystroke listener that builds the command line from KEY_TYPED events
 * while the Terminal tool window is visible and focused. It keeps a buffer
 * of at most 1000 allow-listed characters, emits the trimmed buffer on Enter
 * when it passes a noise filter, and caches the tool-window check for one
 * second.
 */
module SafeTerminal {
  import opened Wrappers
  import opened Text
  import opened LogModel
  import opened KeyEvents
  import Recorder

  /** The buffer is cleared once an append makes it longer than this. */
  const MaxBuffer: nat := 1000
  /** Milliseconds during which the cached tool-window answer is reused. */
  const TerminalCheckInterval: int := 1000

  const AllowedPunctuation: string := " .-_/\\:@#$%^&*()+=[]{}|;'\",./<>?`~"

  /** `isValidCommandChar`. */
  predicate IsValidCommandChar(c: char) {
    IsLetterOrDigit(c) || c in AllowedPunctuation
  }

  /** `isValidCommand`, all four clauses as written. */
  predicate IsValidCommand(command: string) {
    |command| >= 2 && HasLetterOrDigit(command) && !StartsWith(command, "^") && !IsBlank(command)
  }

  /** The whitespace clause adds nothing: a letter or digit is not whitespace. */
  lemma ValidCommandIff(command: string)
    ensures IsValidCommand(command) <==> |command| >= 2 && HasLetterOrDigit(command) && !StartsWith(command, "^")
  {
    if HasLetterOrDigit(command) {
      var i :| 0 <= i < |command| && IsLetterOrDigit(command[i]);
      assert !IsWhitespace(command[i]);
    }
  }

  /** Control characters, Enter and Backspace among them, never enter the buffer. */
  lemma ControlKeysNotValid(c: char)
    requires c < ' '
    ensures !IsValidCommandChar(c)
  {
  }

  /** `handleKeyTyped`. */
  function Typed(buffer: string, c: char): KeyOutcome {
    if IsEnter(c) then
      var command := Trim(buffer);
      KeyOutcome([], if command != [] && IsValidCommand(command) then Some(command) else None)
    else if c == Backspace then
      KeyOutcome(if buffer == [] then [] else buffer[..|buffer| - 1], None)
    else if IsValidCommandChar(c) then
      var appended := buffer + [c];
      KeyOutcome(if |appended| > MaxBuffer then [] else appended, None)
    else
      KeyOutcome(buffer, None)
  }

  /** What the buffer can hold: at most 1000 allow-listed characters. */
  predicate BufferOk(buffer: string) {
    |buffer| <= MaxBuffer && forall i :: 0 <= i < |buffer| ==> IsValidCommandChar(buffer[i])
  }

  /** Every keystroke keeps the buffer within its bound and its alphabet. */
  lemma TypedKeepsBufferOk(buffer: string, c: char)
    requires BufferOk(buffer)
    ensures BufferOk(Typed(buffer, c).buffer)
  {
  }

  /** Enter clears the buffer and emits its trimmed text exactly when that
      text passes the filter; no other key emits anything. */
  lemma EnterSpec(buffer: string, c: char)
    ensures IsEnter(c) ==> Typed(buffer, c).buffer == []
    ensures Typed(buffer, c).command.Some? <==> IsEnter(c) && IsValidCommand(Trim(buffer))
    ensures Typed(buffer, c).command.Some? ==> Typed(buffer, c).command.value == Trim(buffer)
  {
  }

  /** An emitted command has no surrounding whitespace and is at least two
      characters long, with a letter or digit. */
  lemma EmittedCommandShape(buffer: string, c: char)
    requires Typed(buffer, c).command.Some?
    ensures var cmd := Typed(buffer, c).command.value;
      |cmd| >= 2 && HasLetterOrDigit(cmd) && !IsWhitespace(cmd[0]) && !IsWhitespace(cmd[|cmd| - 1]) && cmd[0] != '^'
  {
    var cmd := Typed(buffer, c).command.value;
    assert cmd[..1] != "^";
  }

  /** Appending the 1001st character empties the buffer. */
  lemma OverflowClears(buffer: string, c: char)
    requires |buffer| == MaxBuffer && IsValidCommandChar(c)
    ensures Typed(buffer, c) == KeyOutcome([], None)
  {
    ControlKeysNotValid('\n');
    ControlKeysNotValid('\r');
    ControlKeysNotValid(Backspace);
  }

  /** Backspace on an empty buffer leaves it empty; otherwise drops the last character. */
  lemma BackspaceSpec(buffer: string)
    ensures Typed(buffer, Backspace).command.None?
    ensures buffer == [] ==> Typed(buffer, Backspace).buffer == []
    ensures buffer != [] ==> Typed(buffer, Backspace).buffer + [buffer[|buffer| - 1]] == buffer
  {
  }

  /** In a buffer with room left, an allow-listed character is appended. */
  lemma TypedAppends(buffer: string, c: char)
    requires |buffer| < MaxBuffer && IsValidCommandChar(c)
    ensures Typed(buffer, c) == KeyOutcome(buffer + [c], None)
  {
    if c < ' ' { ControlKeysNotValid(c); }
  }

  /** A line of allow-listed characters that fits is typed into an empty buffer unchanged. */
  lemma TypeLine(w: string)
    requires |w| <= MaxBuffer
    requires forall i :: 0 <= i < |w| ==> IsValidCommandChar(w[i])
    ensures Replay(Typed, [], w) == (w, [])
  {
    forall i | 0 <= i < |w|
      ensures Typed(w[..i], w[i]) == KeyOutcome(w[..i + 1], None)
    {
      TypeLineStep(w, i);
    }
    ReplayTypesLine(Typed, w);
  }

  lemma TypeLineStep(w: string, i: nat)
    requires |w| <= MaxBuffer && i < |w| && IsValidCommandChar(w[i])
    ensures Typed(w[..i], w[i]) == KeyOutcome(w[..i + 1], None)
  {
    TypedAppends(w[..i], w[i]);
    assert w[..i] + [w[i]] == w[..i + 1];
  }

  /** Enter on a buffer emits its trimmed text when that is a valid command. */
  lemma PressEnter(buffer: string)
    ensures Replay(Typed, buffer, "\n") == ([], if IsValidCommand(Trim(buffer)) then [Trim(buffer)] else [])
  {
    var cmd := Trim(buffer);
    var out := Typed(buffer, '\n');
    assert out.buffer == [];
    assert out.command == if IsValidCommand(cmd) then Some(cmd) else None;
    var emitted := if out.command.Some? then [out.command.value] else [];
    assert "\n"[0] == '\n' && "\n"[1..] == [];
    assert Replay(Typed, buffer, "\n") == (Replay(Typed, [], []).0, emitted + Replay(Typed, [], []).1);
    assert emitted + [] == emitted;
  }

  /** Enter after a line that was typed into an empty buffer unchanged. */
  lemma LineThenEnter(w: string)
    requires Replay(Typed, [], w) == (w, [])
    ensures Replay(Typed, [], w + "\n") == ([], if IsValidCommand(Trim(w)) then [Trim(w)] else [])
  {
    PressEnter(w);
    ReplaySplit(Typed, [], w, "\n");
    var last := Replay(Typed, w, "\n");
    assert Replay(Typed, [], w + "\n") == (last.0, [] + last.1);
    assert [] + last.1 == last.1;
  }

  /** Typing a line of allow-listed characters and Enter on an empty buffer
      records the trimmed line exactly when it is a valid command, and
      leaves the buffer empty. */
  lemma TypeLineThenEnter(w: string)
    requires |w| <= MaxBuffer
    requires forall i :: 0 <= i < |w| ==> IsValidCommandChar(w[i])
    ensures Replay(Typed, [], w + "\n") == ([], if IsValidCommand(Trim(w)) then [Trim(w)] else [])
  {
    TypeLine(w);
    LineThenEnter(w);
  }

  /** Only KEY_TYPED key events reach the buffer. */
  predicate IsTypedKey(event: AwtEvent) {
    event.KeyEvent? && event.id == KeyTyped
  }

  /** What the tool-window query answers: shown and focused. */
  function ProbeAnswer(window: TerminalToolWindow): bool {
    window.TerminalWindow? && window.visible && window.active
  }

  class SafeTerminalListener {
    const recorder: Recorder.RecorderService
    var commandBuffer: string
    var isListening: bool
    var lastTerminalCheck: int
    var isInTerminalCache: bool

    predicate Valid()
      reads this
    {
      BufferOk(commandBuffer)
    }

    constructor (recorder: Recorder.RecorderService)
      ensures this.recorder == recorder && Valid()
      ensures commandBuffer == [] && !isListening && lastTerminalCheck == 0 && !isInTerminalCache
    {
      this.recorder := recorder;
      commandBuffer := [];
      isListening := false;
      lastTerminalCheck := 0;
      isInTerminalCache := false;
    }

    /** Registers for key events unless already listening. */
    method StartListening()
      modifies this
      ensures isListening
      ensures commandBuffer == old(commandBuffer)
      ensures lastTerminalCheck == old(lastTerminalCheck) && isInTerminalCache == old(isInTerminalCache)
    {
      if !isListening {
        isListening := true;
      }
    }

    /** Unregisters and clears the buffer, if listening. */
    method StopListening()
      requires Valid()
      modifies this
      ensures Valid() && !isListening
      ensures commandBuffer == if old(isListening) then [] else old(commandBuffer)
      ensures lastTerminalCheck == old(lastTerminalCheck) && isInTerminalCache == old(isInTerminalCache)
    {
      if isListening {
        isListening := false;
        commandBuffer := [];
      }
    }

    /** `isInTerminal` with the clock and the tool-window state as inputs;
        `NoTerminalWindow` also stands for a query that threw, which caches
        false the same way. */
    method IsInTerminal(now: int, window: TerminalToolWindow) returns (inTerminal: bool)
      modifies this
      ensures commandBuffer == old(commandBuffer) && isListening == old(isListening)
      ensures now - old(lastTerminalCheck) < TerminalCheckInterval ==>
        inTerminal == old(isInTerminalCache)
        && lastTerminalCheck == old(lastTerminalCheck) && isInTerminalCache == old(isInTerminalCache)
      ensures now - old(lastTerminalCheck) >= TerminalCheckInterval ==>
        inTerminal == ProbeAnswer(window) && isInTerminalCache == inTerminal && lastTerminalCheck == now
    {
      if now - lastTerminalCheck < TerminalCheckInterval {
        return isInTerminalCache;
      }
      match window {
        case TerminalWindow(visible, active, _) =>
          isInTerminalCache := visible && active;
        case NoTerminalWindow =>
          isInTerminalCache := false;
      }
      lastTerminalCheck := now;
      return isInTerminalCache;
    }

    /** `handleKeyTyped`: updates the buffer and records an emitted command. */
    method HandleKeyTyped(c: char, now: int)
      requires Valid()
      modifies this, recorder
      ensures Valid()
      ensures commandBuffer == Typed(old(commandBuffer), c).buffer
      ensures isListening == old(isListening)
      ensures lastTerminalCheck == old(lastTerminalCheck) && isInTerminalCache == old(isInTerminalCache)
      ensures recorder.isRecording == old(recorder.isRecording)
      ensures recorder.operationLog == old(recorder.operationLog) + KeyedEntries(old(commandBuffer), c, now, old(recorder.isRecording))
    {
      TypedKeepsBufferOk(commandBuffer, c);
      var outcome := Typed(commandBuffer, c);
      if outcome.command.Some? {
        recorder.AddCommandEntry(now, outcome.command.value, "");
      }
      commandBuffer := outcome.buffer;
    }

    /** `eventDispatched`: only key-typed events while recording and while
        the terminal has focus reach the buffer. */
    method EventDispatched(event: AwtEvent, now: int, window: TerminalToolWindow)
      requires Valid()
      modifies this, recorder
      ensures Valid()
      ensures isListening == old(isListening)
      ensures recorder.isRecording == old(recorder.isRecording)
      ensures !(old(recorder.isRecording) && IsTypedKey(event)) ==>
        commandBuffer == old(commandBuffer) && recorder.operationLog == old(recorder.operationLog)
        && lastTerminalCheck == old(lastTerminalCheck) && isInTerminalCache == old(isInTerminalCache)
      ensures old(recorder.isRecording) && IsTypedKey(event) ==>
        var inTerminal := if now - old(lastTerminalCheck) < TerminalCheckInterval
                          then old(isInTerminalCache) else ProbeAnswer(window);
        isInTerminalCache == inTerminal
        && lastTerminalCheck == (if now - old(lastTerminalCheck) < TerminalCheckInterval then old(lastTerminalCheck) else now)
        && commandBuffer == (if inTerminal then Typed(old(commandBuffer), event.keyChar).buffer else old(commandBuffer))
        && recorder.operationLog == old(recorder.operationLog)
             + (if inTerminal then KeyedEntries(old(commandBuffer), event.keyChar, now, true) else [])
    {
      if !recorder.isRecording || !event.KeyEvent? {
        return;
      }
      if event.id != KeyTyped {
        return;
      }
      var inTerminal := IsInTerminal(now, window);
      if !inTerminal {
        return;
      }
      HandleKeyTyped(event.keyChar, now);
    }
  }

  /** The entries one keystroke adds to the log. */
  function KeyedEntries(buffer: string, c: char, now: int, recording: bool): seq<LogEntry> {
    var outcome := Typed(buffer, c);
    if outcome.command.Some? && recording then [Recorder.CommandEntry(now, outcome.command.value, "")] else []
  }

  /** A recorded keystroke command is a well-formed COMMAND entry with empty output. */
  lemma KeyedEntriesShape(buffer: string, c: char, now: int, recording: bool)
    ensures |KeyedEntries(buffer, c, now, recording)| <= 1
    ensures KeyedEntries(buffer, c, now, recording) != [] <==> recording && IsEnter(c) && IsValidCommand(Trim(buffer))
    ensures forall e :: e in KeyedEntries(buffer, c, now, recording) ==>
      WellShaped(e) && e.logType == Command && e.command == Some(Trim(buffer)) && e.output == Some("")
  {
    Recorder.BuildersWellShaped(now, Trim(buffer), "", "", "");
  }
}
