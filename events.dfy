/** Canonical keyboard events, the error kinds the library raises, and the loose
    event equality the test assertions rely on. */
module Events {

  datatype Option<+T> = None | Some(value: T)

  /** The exceptions of the library, one constructor per distinct cause. */
  datatype Error =
    | InvalidKey          // ValueError: a key that does not resolve to any scan code
    | MultiStepQuery      // ValueError: is_pressed on a `,`-separated hotkey
    | UnsupportedHotkey   // NotImplementedError: a suppressing hotkey the automaton cannot express
    | AlreadyRecording    // ValueError: start_recording while a recording is active
    | NotRecording        // ValueError: stop_recording with no active recording
    | UnknownHandle       // removal of a hook or rule that is not registered
    | MissingName         // an event without a name where a name is needed
    | NoScanCode          // IndexError: a key to send that has no scan code

  datatype Result<+T> = Ok(value: T) | Err(error: Error)

  datatype EventType = Down | Up

  /** A keyboard event. The sign of `code` tells apart the two hardware
      encodings a shifted letter may be reported with; `name` is absent on
      events synthesised from a bare scan code. */
  datatype KeyEvent = KeyEvent(kind: EventType, code: int, name: Option<string>)

  /** Event equality as the assertions use it: type and scan code must agree,
      names only when both events carry one. */
  predicate Same(a: KeyEvent, b: KeyEvent)
  {
    a.kind == b.kind && a.code == b.code && (a.name.None? || b.name.None? || a.name == b.name)
  }

  /** `Same`, element by element, on two event lists of the same length. */
  predicate SameEvents(xs: seq<KeyEvent>, ys: seq<KeyEvent>)
  {
    |xs| == |ys| && forall i :: 0 <= i < |xs| ==> Same(xs[i], ys[i])
  }

  lemma SameEventsConcat(a: seq<KeyEvent>, b: seq<KeyEvent>, c: seq<KeyEvent>, d: seq<KeyEvent>)
    requires SameEvents(a, c) && SameEvents(b, d)
    ensures SameEvents(a + b, c + d)
  {
    forall i | 0 <= i < |a + b| ensures Same((a + b)[i], (c + d)[i]) {
      if i >= |a| {
        assert (a + b)[i] == b[i - |a|] && (c + d)[i] == d[i - |c|];
      }
    }
  }

  /** Scan codes of a sequence of events, in order. */
  function Codes(events: seq<KeyEvent>): (r: seq<int>)
    ensures |r| == |events| && forall i :: 0 <= i < |r| ==> r[i] == events[i].code
  {
    seq(|events|, i requires 0 <= i < |events| => events[i].code)
  }

  /** Events synthesised from bare scan codes, as the OS collaborator reports
      its own presses and releases. */
  function Synth(kind: EventType, codes: seq<int>): (r: seq<KeyEvent>)
    ensures |r| == |codes|
    ensures forall i :: 0 <= i < |r| ==> r[i] == KeyEvent(kind, codes[i], None)
  {
    seq(|codes|, i requires 0 <= i < |codes| => KeyEvent(kind, codes[i], None))
  }
}
