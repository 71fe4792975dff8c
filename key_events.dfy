/**
 * The parts of AWT key events and of the IDE's Terminal tool window that the
 * keystroke listeners look at. Components are named by ids; the Swing tree
 * is a map from a component to its parent.
 */
module KeyEvents {
  import opened Wrappers

  /** `KeyEvent.VK_C`, `KeyEvent.VK_U` and `KeyEvent.VK_L`. */
  const VkC: int := 67
  const VkU: int := 85
  const VkL: int := 76

  const Backspace: char := '\U{8}'

  predicate IsEnter(c: char) {
    c == '\n' || c == '\r'
  }

  datatype KeyEventId = KeyTyped | KeyPressed | KeyReleased

  /** A component as the listeners see it: its identity and its class name. */
  datatype Component = Component(id: nat, className: string)

  /** A dispatched AWT event; only key events carry the fields the listeners read. */
  datatype AwtEvent =
    | KeyEvent(id: KeyEventId, keyChar: char, keyCode: int, controlDown: bool, component: Option<Component>)
    | OtherEvent

  /** The "Terminal" tool window, when the IDE has one: whether it is shown,
      whether it has focus, and the id of its root component. */
  datatype TerminalToolWindow =
    | TerminalWindow(visible: bool, active: bool, root: nat)
    | NoTerminalWindow

  /** The buffer after one typed character, and the command it emits. */
  datatype KeyOutcome = KeyOutcome(buffer: string, command: Option<string>)

  /** Typing `keys` one by one from `buffer` with the transition `step`: the
      final buffer and the emitted commands, in order. */
  function Replay(step: (string, char) -> KeyOutcome, buffer: string, keys: string): (string, seq<string>)
    decreases |keys|
  {
    if keys == [] then (buffer, [])
    else
      var out := step(buffer, keys[0]);
      var rest := Replay(step, out.buffer, keys[1..]);
      (rest.0, (if out.command.Some? then [out.command.value] else []) + rest.1)
  }

  /** Typing `a` and then `b` is typing `a + b`. */
  lemma {:induction false} ReplaySplit(step: (string, char) -> KeyOutcome, buffer: string, a: string, b: string)
    ensures var first := Replay(step, buffer, a);
      Replay(step, buffer, a + b) == (Replay(step, first.0, b).0, first.1 + Replay(step, first.0, b).1)
    decreases |a|
  {
    if a == [] {
      assert a + b == b;
      assert [] + Replay(step, buffer, b).1 == Replay(step, buffer, b).1;
    } else {
      var out := step(buffer, a[0]);
      var emitted := if out.command.Some? then [out.command.value] else [];
      assert (a + b)[0] == a[0];
      assert (a + b)[1..] == a[1..] + b;
      ReplaySplit(step, out.buffer, a[1..], b);
      var mid := Replay(step, out.buffer, a[1..]);
      var tail := Replay(step, mid.0, b);
      assert emitted + (mid.1 + tail.1) == (emitted + mid.1) + tail.1;
    }
  }

  /** Keys that the transition simply appends leave their text in the buffer
      and emit nothing. */
  lemma {:induction false} ReplayAppends(step: (string, char) -> KeyOutcome, buffer: string, w: string)
    requires forall i :: 0 <= i < |w| ==> step(buffer + w[..i], w[i]) == KeyOutcome(buffer + w[..i + 1], None)
    ensures Replay(step, buffer, w) == (buffer + w, [])
    decreases |w|
  {
    if w == [] {
      assert buffer + w == buffer;
    } else {
      assert w[..0] == [] && buffer + w[..0] == buffer;
      var next := buffer + w[..1];
      assert step(buffer, w[0]) == KeyOutcome(next, None);
      forall i | 0 <= i < |w[1..]|
        ensures step(next + w[1..][..i], w[1..][i]) == KeyOutcome(next + w[1..][..i + 1], None)
      {
        assert next + w[1..][..i] == buffer + w[..i + 1];
        assert next + w[1..][..i + 1] == buffer + w[..i + 2];
      }
      ReplayAppends(step, next, w[1..]);
      assert next + w[1..] == buffer + w;
      var rest := Replay(step, next, w[1..]);
      assert Replay(step, buffer, w) == (rest.0, [] + rest.1);
      assert rest == (buffer + w, []);
      assert [] + rest.1 == [];
    }
  }

  /** Keys that each append themselves, typed into an empty buffer, leave
      exactly the typed text there and emit nothing. */
  lemma ReplayTypesLine(step: (string, char) -> KeyOutcome, w: string)
    requires forall i :: 0 <= i < |w| ==> step(w[..i], w[i]) == KeyOutcome(w[..i + 1], None)
    ensures Replay(step, [], w) == (w, [])
  {
    forall i | 0 <= i < |w|
      ensures step([] + w[..i], w[i]) == KeyOutcome([] + w[..i + 1], None)
    {
      assert [] + w[..i] == w[..i] && [] + w[..i + 1] == w[..i + 1];
    }
    ReplayAppends(step, [], w);
    assert [] + w == w;
  }
}
