/**
 * The keystroke listener that decides per event whether the focused
 * component belongs to a terminal (by its class name, or by lying inside
 * the visible Terminal tool window) and builds the command line from
 * KEY_TYPED events, with Ctrl+C and Ctrl+U clearing it. Unlike the safe
 * listener it has no length cap and no validity filter beyond non-blank.
 */
module SimpleTerminal {
  import opened Wrappers
  import opened Text
  import opened LogModel
  import opened KeyEvents
  import Recorder

  const AllowedPunctuation: string := " !@#$%^&*()_+-=[]{}|;':\",./<>?`~\\"

  predicate IsAllowedChar(c: char) {
    IsLetterOrDigit(c) || c in AllowedPunctuation
  }

  /** Control characters, Enter and Backspace among them, are not allowed. */
  lemma ControlCharsNotAllowed(c: char)
    requires c < ' '
    ensures !IsAllowedChar(c)
  {
  }

  /** `handleKeyTyped`. */
  function Typed(buffer: string, c: char): KeyOutcome {
    if IsEnter(c) then
      var command := Trim(buffer);
      KeyOutcome([], if command != [] then Some(command) else None)
    else if c == Backspace then
      KeyOutcome(if buffer == [] then [] else buffer[..|buffer| - 1], None)
    else if IsAllowedChar(c) then
      KeyOutcome(buffer + [c], None)
    else
      KeyOutcome(buffer, None)
  }

  /** Enter clears the buffer and emits its trimmed text exactly when that is
      not blank; no other key emits anything. */
  lemma EnterSpec(buffer: string, c: char)
    ensures IsEnter(c) ==> Typed(buffer, c).buffer == []
    ensures Typed(buffer, c).command.Some? <==> IsEnter(c) && !IsBlank(buffer)
    ensures Typed(buffer, c).command.Some? ==>
      var cmd := Typed(buffer, c).command.value;
      cmd == Trim(buffer) && cmd != [] && !IsWhitespace(cmd[0]) && !IsWhitespace(cmd[|cmd| - 1])
  {
  }

  /** The buffer only ever holds allowed characters. */
  lemma TypedKeepsAlphabet(buffer: string, c: char)
    requires forall i :: 0 <= i < |buffer| ==> IsAllowedChar(buffer[i])
    ensures var b := Typed(buffer, c).buffer;
      forall i :: 0 <= i < |b| ==> IsAllowedChar(b[i])
  {
  }

  /** There is no cap: an allowed character always grows the buffer by one. */
  lemma NoLengthCap(buffer: string, c: char)
    requires IsAllowedChar(c)
    ensures Typed(buffer, c) == KeyOutcome(buffer + [c], None)
  {
    if c < ' ' { ControlCharsNotAllowed(c); }
  }

  /** Typing allowed characters and Enter on an empty buffer records the
      trimmed text exactly when it is not blank, however long it is. */
  lemma TypeLineThenEnter(w: string)
    requires forall i :: 0 <= i < |w| ==> IsAllowedChar(w[i])
    ensures Replay(Typed, [], w + "\n") == ([], if IsBlank(w) then [] else [Trim(w)])
  {
    TypeLine(w);
    LineThenEnter(w);
  }

  lemma TypeLine(w: string)
    requires forall i :: 0 <= i < |w| ==> IsAllowedChar(w[i])
    ensures Replay(Typed, [], w) == (w, [])
  {
    forall i | 0 <= i < |w|
      ensures Typed(w[..i], w[i]) == KeyOutcome(w[..i + 1], None)
    {
      TypeLineStep(w, i);
    }
    ReplayTypesLine(Typed, w);
  }

  lemma TypeLineStep(w: string, i: nat)
    requires i < |w| && IsAllowedChar(w[i])
    ensures Typed(w[..i], w[i]) == KeyOutcome(w[..i + 1], None)
  {
    NoLengthCap(w[..i], w[i]);
    assert w[..i] + [w[i]] == w[..i + 1];
  }

  lemma LineThenEnter(w: string)
    requires Replay(Typed, [], w) == (w, [])
    ensures Replay(Typed, [], w + "\n") == ([], if IsBlank(w) then [] else [Trim(w)])
  {
    var out := Typed(w, '\n');
    var emitted := if out.command.Some? then [out.command.value] else [];
    assert "\n"[0] == '\n' && "\n"[1..] == [];
    assert Replay(Typed, w, "\n") == (Replay(Typed, [], []).0, emitted + Replay(Typed, [], []).1);
    assert emitted + [] == emitted;
    ReplaySplit(Typed, [], w, "\n");
    var last := Replay(Typed, w, "\n");
    assert Replay(Typed, [], w + "\n") == (last.0, [] + last.1);
    assert [] + last.1 == last.1;
  }

  /** `handleKeyPressed`: Ctrl+C and Ctrl+U clear the buffer; Ctrl+L and
      every other key press keep it. */
  function Pressed(buffer: string, keyCode: int, controlDown: bool): (r: string)
    ensures r == [] || r == buffer
    ensures r != buffer <==> buffer != [] && controlDown && (keyCode == VkC || keyCode == VkU)
  {
    if controlDown && (keyCode == VkC || keyCode == VkU) then [] else buffer
  }

  /** `isTerminalComponent`'s class-name test. */
  predicate IsTerminalClassName(name: string) {
    var lower := ToLower(name);
    Contains(lower, "terminal") || Contains(lower, "shell") || Contains(lower, "console") || Contains(lower, "jediterm")
  }

  lemma ToLowerIdempotent(s: string)
    ensures ToLower(ToLower(s)) == ToLower(s)
  {
  }

  /** The class-name test ignores case. */
  lemma ClassNameIgnoresCase(name: string)
    ensures IsTerminalClassName(ToLower(name)) == IsTerminalClassName(name)
  {
    ToLowerIdempotent(name);
  }

  /** Any class in a `jediterm` package, such as
      `com.jediterm.terminal.ui.TerminalPanel`, is recognised by its name. */
  lemma JediTermClassIsTerminal(p: string, q: string)
    ensures IsTerminalClassName(p + "jediterm" + q)
  {
    var name := p + "jediterm" + q;
    var lower := ToLower(name);
    forall k | 0 <= k < 8 ensures lower[|p| + k] == "jediterm"[k] {
      assert name[|p| + k] == "jediterm"[k];
      assert 'a' <= "jediterm"[k] <= 'z';
    }
    assert lower[|p|..|p| + 8] == "jediterm";
    assert OccursAt(lower, "jediterm", |p|);
  }

  // ---------------------------------------------------------------------
  // The component tree

  /** Ids number the tree so that a parent comes before its children; this
      is how the model states that the AWT containment tree has no cycles. */
  predicate ParentsPrecede(parent: map<nat, nat>) {
    forall c :: c in parent ==> parent[c] < c
  }

  /** The strict chain of containers above `c`, nearest first. */
  function Ancestors(parent: map<nat, nat>, c: nat): (r: seq<nat>)
    requires ParentsPrecede(parent)
    ensures forall k :: 0 <= k < |r| ==> r[k] < c
    ensures c in parent <==> r != []
    ensures r != [] ==> r[0] == parent[c]
    decreases c
  {
    if c in parent then [parent[c]] + Ancestors(parent, parent[c]) else []
  }

  /** A component is never its own descendant. */
  lemma NotOwnDescendant(parent: map<nat, nat>, c: nat)
    requires ParentsPrecede(parent)
    ensures c !in Ancestors(parent, c)
  {
  }

  /** Being below is transitive along the chain. */
  lemma {:induction false} AncestorsTransitive(parent: map<nat, nat>, c: nat, a: nat, b: nat)
    requires ParentsPrecede(parent)
    requires a in Ancestors(parent, c) && b in Ancestors(parent, a)
    ensures b in Ancestors(parent, c)
    decreases c
  {
    var p := parent[c];
    if a != p {
      AncestorsTransitive(parent, p, a, b);
    }
  }

  /** `isDescendantOf`: walks up the parent chain looking for `ancestor`. */
  method IsDescendantOf(component: nat, ancestor: nat, parent: map<nat, nat>) returns (found: bool)
    requires ParentsPrecede(parent)
    ensures found <==> ancestor in Ancestors(parent, component)
  {
    var current: Option<nat> := if component in parent then Some(parent[component]) else None;
    while current.Some?
      invariant current.Some? ==> current.value < component
      invariant ancestor in Ancestors(parent, component) <==>
        current.Some? && (current.value == ancestor || ancestor in Ancestors(parent, current.value))
      decreases if current.Some? then current.value + 1 else 0
    {
      if current.value == ancestor {
        return true;
      }
      current := if current.value in parent then Some(parent[current.value]) else None;
    }
    return false;
  }

  /** Whether the tool-window path of `isTerminalComponent` accepts `c`. */
  ghost predicate InTerminalToolWindow(c: nat, window: TerminalToolWindow, parent: map<nat, nat>)
    requires ParentsPrecede(parent)
  {
    window.TerminalWindow? && window.visible && window.root in Ancestors(parent, c)
  }

  /** `isTerminalComponent`. */
  method IsTerminalComponent(component: Option<Component>, window: TerminalToolWindow, parent: map<nat, nat>)
    returns (isTerminal: bool)
    requires ParentsPrecede(parent)
    ensures component.None? ==> !isTerminal
    ensures component.Some? ==>
      (isTerminal <==> IsTerminalClassName(component.value.className)
                       || InTerminalToolWindow(component.value.id, window, parent))
  {
    if component.None? {
      return false;
    }
    if IsTerminalClassName(component.value.className) {
      return true;
    }
    match window {
      case NoTerminalWindow =>
        isTerminal := false;
      case TerminalWindow(visible, _, root) =>
        if !visible {
          isTerminal := false;
        } else {
          isTerminal := IsDescendantOf(component.value.id, root, parent);
        }
    }
  }

  class SimpleTerminalListener {
    const recorder: Recorder.RecorderService
    var commandBuffer: string
    var isInTerminal: bool
    var isListening: bool

    constructor (recorder: Recorder.RecorderService)
      ensures this.recorder == recorder
      ensures commandBuffer == [] && !isInTerminal && !isListening
    {
      this.recorder := recorder;
      commandBuffer := [];
      isInTerminal := false;
      isListening := false;
    }

    method StartListening()
      modifies this
      ensures isListening && commandBuffer == old(commandBuffer) && isInTerminal == old(isInTerminal)
    {
      if !isListening {
        isListening := true;
      }
    }

    /** Unregisters and clears the buffer, if listening. */
    method StopListening()
      modifies this
      ensures !isListening && isInTerminal == old(isInTerminal)
      ensures commandBuffer == if old(isListening) then [] else old(commandBuffer)
    {
      if isListening {
        isListening := false;
        commandBuffer := [];
      }
    }

    method HandleKeyTyped(c: char, now: int)
      modifies this, recorder
      ensures commandBuffer == Typed(old(commandBuffer), c).buffer
      ensures isInTerminal == old(isInTerminal) && isListening == old(isListening)
      ensures recorder.isRecording == old(recorder.isRecording)
      ensures recorder.operationLog == old(recorder.operationLog) + KeyedEntries(old(commandBuffer), c, now, old(recorder.isRecording))
    {
      var outcome := Typed(commandBuffer, c);
      if outcome.command.Some? {
        recorder.AddCommandEntry(now, outcome.command.value, "");
      }
      commandBuffer := outcome.buffer;
    }

    method HandleKeyPressed(keyCode: int, controlDown: bool)
      modifies this
      ensures commandBuffer == Pressed(old(commandBuffer), keyCode, controlDown)
      ensures isInTerminal == old(isInTerminal) && isListening == old(isListening)
    {
      if keyCode == VkC {
        if controlDown {
          commandBuffer := [];
        }
      } else if keyCode == VkU {
        if controlDown {
          commandBuffer := [];
        }
      } else if keyCode == VkL {
        // Ctrl+L clears the screen, not the command.
      }
    }

    /** `eventDispatched`: key events while recording refresh `isInTerminal`;
        typed and pressed keys in a terminal then reach the buffer. */
    method EventDispatched(event: AwtEvent, now: int, window: TerminalToolWindow, parent: map<nat, nat>)
      requires ParentsPrecede(parent)
      modifies this, recorder
      ensures isListening == old(isListening)
      ensures recorder.isRecording == old(recorder.isRecording)
      ensures !(old(recorder.isRecording) && event.KeyEvent?) ==>
        commandBuffer == old(commandBuffer) && isInTerminal == old(isInTerminal)
        && recorder.operationLog == old(recorder.operationLog)
      ensures old(recorder.isRecording) && event.KeyEvent? ==>
        (isInTerminal <==> (event.component.Some?
                            && (IsTerminalClassName(event.component.value.className)
                                || InTerminalToolWindow(event.component.value.id, window, parent))))
      ensures old(recorder.isRecording) && event.KeyEvent? && !isInTerminal ==>
        commandBuffer == old(commandBuffer) && recorder.operationLog == old(recorder.operationLog)
      ensures old(recorder.isRecording) && event.KeyEvent? && isInTerminal ==>
        match event.id
        case KeyTyped =>
          commandBuffer == Typed(old(commandBuffer), event.keyChar).buffer
          && recorder.operationLog == old(recorder.operationLog) + KeyedEntries(old(commandBuffer), event.keyChar, now, true)
        case KeyPressed =>
          commandBuffer == Pressed(old(commandBuffer), event.keyCode, event.controlDown)
          && recorder.operationLog == old(recorder.operationLog)
        case KeyReleased =>
          commandBuffer == old(commandBuffer) && recorder.operationLog == old(recorder.operationLog)
    {
      if !recorder.isRecording || !event.KeyEvent? {
        return;
      }
      isInTerminal := IsTerminalComponent(event.component, window, parent);
      if !isInTerminal {
        return;
      }
      match event.id {
        case KeyTyped =>
          HandleKeyTyped(event.keyChar, now);
        case KeyPressed =>
          HandleKeyPressed(event.keyCode, event.controlDown);
        case KeyReleased =>
      }
    }
  }

  /** The entries one typed key adds to the log. */
  function KeyedEntries(buffer: string, c: char, now: int, recording: bool): seq<LogEntry> {
    var outcome := Typed(buffer, c);
    if outcome.command.Some? && recording then [Recorder.CommandEntry(now, outcome.command.value, "")] else []
  }

  /** A typed key records at most one well-formed command entry, and does so
      exactly on Enter over a non-blank buffer while recording. */
  lemma KeyedEntriesShape(buffer: string, c: char, now: int, recording: bool)
    ensures |KeyedEntries(buffer, c, now, recording)| <= 1
    ensures KeyedEntries(buffer, c, now, recording) != [] <==> recording && IsEnter(c) && !IsBlank(buffer)
    ensures forall e :: e in KeyedEntries(buffer, c, now, recording) ==>
      WellShaped(e) && e.logType == Command && e.command == Some(Trim(buffer)) && e.output == Some("")
  {
    Recorder.BuildersWellShaped(now, Trim(buffer), "", "", "");
  }
}
