/** The listener as the test harness drives it: one object whose fields are
    the library's module state (pressed keys, block and remap tables,
    hotkey automata, hooks, recording, handles, callbacks reached) and the
    harness's `output_events`. Each method updates those fields in place and
    is proved against the session functions of `Listener`. */
module Machine {
  import opened Events
  import opened Keys
  import opened Listener
  import Client

  class Keyboard {
    var pressed: Pressed
    var blocks: seq<Block>
    var remaps: seq<Remap>
    var outstanding: map<int, seq<seq<int>>>
    var parts: seq<Part>
    var hooks: seq<Hook>
    var recording: Option<Recording>
    var nextId: nat
    var calls: seq<Call>
    var output: seq<KeyEvent>

    /** The fields read as a session value. */
    function State(): Session
      reads this
    {
      Session(pressed, blocks, remaps, outstanding, parts, hooks, recording, nextId, calls, output)
    }

    /** The harness's `setUp`/`tearDown`: nothing pressed, no rule, no hook. */
    constructor ()
      ensures State() == Fresh()
    {
      pressed, blocks, remaps, outstanding := map[], [], [], map[];
      parts, hooks, recording, nextId := [], [], None, 0;
      calls, output := [], [];
    }

    /** Events delivered as they are, one by one: each changes the pressed
        state and is appended to the output. */
    method Replay(events: seq<KeyEvent>)
      modifies this
      ensures State() == Listener.Replay(old(State()), events)
    {
      var i := 0;
      while i < |events|
        invariant 0 <= i <= |events|
        invariant pressed == TrackAll(old(pressed), events[..i])
        invariant output == old(output) + events[..i]
        invariant blocks == old(blocks) && remaps == old(remaps) && outstanding == old(outstanding)
        invariant parts == old(parts) && hooks == old(hooks) && recording == old(recording)
        invariant nextId == old(nextId) && calls == old(calls)
      {
        TrackAllConcat(old(pressed), events[..i], [events[i]]);
        assert events[..i + 1] == events[..i] + [events[i]];
        pressed := Track(pressed, events[i]);
        output := output + [events[i]];
        i := i + 1;
      }
      assert events[..i] == events;
    }

    /** Every automaton sees the event in registration order, and what it
        emits is delivered at once; the event is claimed when one of them
        claims it. */
    method RunParts(e: KeyEvent) returns (claimed: bool)
      modifies this
      ensures (State(), claimed) == Listener.RunParts(old(State()), e, 0)
    {
      ghost var goal := Listener.RunParts(State(), e, 0);
      var i := 0;
      claimed := false;
      while i < |parts|
        invariant 0 <= i <= |parts| == |State().parts|
        invariant RunPartsFrom(State(), e, i, claimed, goal)
      {
        ghost var before := State();
        var o := PartTurn(i, e);
        ghost var fired := if o.fired then [Call(before.parts[i].id, e)] else [];
        RunPartsTurn(before, e, i, o, fired, before.(parts := before.parts[i := o.part], calls := before.calls + fired), State(), claimed, goal);
        claimed := claimed || o.claimed;
        i := i + 1;
      }
      RunPartsDone(State(), e, claimed, goal);
    }

    /** One automaton's turn: it steps on the event, its callback is logged
        if it fires, and what it emits is delivered. */
    method PartTurn(i: nat, e: KeyEvent) returns (o: Outcome)
      requires i < |parts|
      modifies this
      ensures o == PartStep(old(parts[i]), e)
      ensures State() == Listener.Replay(old(State()).(parts := old(parts)[i := o.part],
                                                       calls := old(calls) + (if o.fired then [Call(old(parts[i]).id, e)] else [])), o.emit)
    {
      o := PartStep(parts[i], e);
      var fired := if o.fired then [Call(parts[i].id, e)] else [];
      parts := parts[i := o.part];
      calls := calls + fired;
      Replay(o.emit);
    }

    /** The hook stage: the suppressing hooks are called and decide; on
        acceptance the other hooks are called and the recording takes the
        event. */
    method RunHooks(e: KeyEvent) returns (accepted: bool)
      modifies this
      ensures (State(), accepted) == Listener.RunHooks(old(State()), e)
    {
      var suppressing := CallsOf(hooks, e, true);
      calls := calls + suppressing;
      accepted := Accepts(hooks, e);
      if accepted {
        calls := calls + CallsOf(hooks, e, false);
        recording := Record(recording, e);
      }
    }

    /** `direct_callback`: track the key, then the block, remap, hotkey and
        hook stages in that order; the result says whether the event is
        forwarded. */
    method Dispatch(e: KeyEvent) returns (accepted: bool)
      modifies this
      ensures (State(), accepted) == Listener.Dispatch(old(State()), e)
    {
      pressed := Track(pressed, e);
      var target := RemapTarget(remaps, e.code);
      if Blocked(blocks, e.code) {
        accepted := false;
      } else if e.kind == Down && target.Some? {
        outstanding := outstanding[e.code := target.value];
        Replay(SendEvents(target.value, true, false));
        accepted := false;
      } else if e.kind == Up && e.code in outstanding {
        var held := outstanding[e.code];
        outstanding := outstanding - {e.code};
        Replay(SendEvents(held, false, true));
        accepted := false;
      } else if e.kind == Up && target.Some? {
        Replay(SendEvents(target.value, false, true));
        accepted := false;
      } else {
        var claimed := RunParts(e);
        if claimed {
          accepted := false;
        } else {
          accepted := RunHooks(e);
        }
      }
    }

    /** `send_instant_event`: dispatch, and append the event to the output
        when it is forwarded. */
    method Deliver(e: KeyEvent)
      modifies this
      ensures State() == Step(old(State()), e)
    {
      var accepted := Dispatch(e);
      if accepted {
        output := output + [e];
      }
    }

    /** The harness's `do`: deliver the input events in order, then hand
        over what came out and start the next round with an empty output. */
    method Pump(events: seq<KeyEvent>) returns (out: seq<KeyEvent>)
      modifies this
      ensures (out, State()) == Do(old(State()), events)
    {
      var i := 0;
      while i < |events|
        invariant 0 <= i <= |events|
        invariant State() == Inject(old(State()), events[..i])
      {
        InjectConcat(old(State()), events[..i], [events[i]]);
        assert events[..i + 1] == events[..i] + [events[i]];
        Deliver(events[i]);
        i := i + 1;
      }
      assert events[..i] == events;
      out := output;
      output := [];
    }

    /** `block_key(key)`: the key's scan codes join the block table. */
    method BlockKey(key: Key) returns (r: Result<()>)
      modifies this
      ensures r.Ok? <==> Client.BlockKey(old(State()), key).Ok?
      ensures r.Ok? ==> State() == Client.BlockKey(old(State()), key).value
      ensures r.Err? ==> r.error == Client.BlockKey(old(State()), key).error && State() == old(State())
    {
      var codes := ScanCodes(key);
      if codes.Err? {
        return Err(codes.error);
      }
      blocks := blocks + [Block(key, codes.value)];
      r := Ok(());
    }

    /** `unblock_key(key)`: the first block of that key leaves the table. */
    method UnblockKey(key: Key) returns (r: Result<()>)
      modifies this
      ensures r.Ok? <==> Client.UnblockKey(old(State()), key).Ok?
      ensures r.Ok? ==> State() == Client.UnblockKey(old(State()), key).value
      ensures r.Err? ==> r.error == UnknownHandle && State() == old(State())
    {
      var i := Client.FirstWhere(blocks, (b: Block) => b.key == key);
      if i == |blocks| {
        return Err(UnknownHandle);
      }
      blocks := Client.RemoveAt(blocks, i);
      r := Ok(());
    }

    /** `remap_key(src, dst)`: the scan codes of `src` now stand for the
        codes chosen for `dst`. */
    method RemapKey(src: Key, dst: Key) returns (r: Result<()>)
      modifies this
      ensures r.Ok? <==> Client.RemapKey(old(State()), src, dst).Ok?
      ensures r.Ok? ==> State() == Client.RemapKey(old(State()), src, dst).value
      ensures r.Err? ==> r.error == Client.RemapKey(old(State()), src, dst).error && State() == old(State())
    {
      var codes := ScanCodes(src);
      if codes.Err? {
        return Err(codes.error);
      }
      var steps := ParseHotkey(dst);
      if steps.Err? {
        return Err(steps.error);
      }
      var target := Chosen(steps.value);
      if target.Err? {
        return Err(target.error);
      }
      remaps := remaps + [Remap(src, codes.value, target.value)];
      r := Ok(());
    }

    /** `unremap_key(key)`: the first remap of that key leaves the table. */
    method UnremapKey(key: Key) returns (r: Result<()>)
      modifies this
      ensures r.Ok? <==> Client.UnremapKey(old(State()), key).Ok?
      ensures r.Ok? ==> State() == Client.UnremapKey(old(State()), key).value
      ensures r.Err? ==> r.error == UnknownHandle && State() == old(State())
    {
      var i := Client.FirstWhere(remaps, (m: Remap) => m.key == key);
      if i == |remaps| {
        return Err(UnknownHandle);
      }
      remaps := Client.RemoveAt(remaps, i);
      r := Ok(());
    }

    /** `_hook_hotkey_part(hotkey, callback, suppress=True)`: a new automaton
        and its handle. */
    method HookHotkeyPart(hotkey: Key, inject: seq<KeyEvent>) returns (r: Result<nat>)
      modifies this
      ensures Client.HookHotkeyPart(old(State()), hotkey, inject) == if r.Ok? then Ok((State(), r.value)) else Err(r.error)
      ensures r.Err? ==> State() == old(State())
    {
      ghost var s0 := State();
      var steps := ParseHotkey(hotkey);
      if steps.Err? {
        HookPartUnparsed(s0, hotkey, inject);
        return Err(steps.error);
      }
      if |steps.value| != 1 || steps.value[0] == [] || Client.LeadsWithNonModifier(steps.value[0]) {
        HookPartRefused(s0, hotkey, inject);
        return Err(UnsupportedHotkey);
      }
      var keys := steps.value[0];
      assert steps.value == [keys];
      var n := |keys| - 1;
      var p := Part(nextId, keys[..n], keys[n], inject, map[]);
      HookPartAccepted(s0, hotkey, inject, keys, p);
      r := Ok(nextId);
      parts, nextId := parts + [p], nextId + 1;
      assert State() == s0.(parts := s0.parts + [p], nextId := s0.nextId + 1);
    }

    /** `unhook_all()`: every hook and automaton goes, the recording's own
        hook included; the tables stay. */
    method UnhookAll()
      modifies this
      ensures State() == Client.UnhookAll(old(State()))
    {
      hooks, parts, recording := [], [], Unhooked(recording);
    }
  }

  /** `_hook_hotkey_part` of a hotkey that does not parse fails as the parse does. */
  lemma HookPartUnparsed(s: Session, hotkey: Key, inject: seq<KeyEvent>)
    requires ParseHotkey(hotkey).Err?
    ensures Client.HookHotkeyPart(s, hotkey, inject) == Err(ParseHotkey(hotkey).error)
  {
  }

  /** `_hook_hotkey_part` of a hotkey of several steps, of an empty step or
      of a step with a non-modifier before its last key is unsupported. */
  lemma HookPartRefused(s: Session, hotkey: Key, inject: seq<KeyEvent>)
    requires ParseHotkey(hotkey).Ok?
    requires var steps := ParseHotkey(hotkey).value;
             |steps| != 1 || steps[0] == [] || Client.LeadsWithNonModifier(steps[0])
    ensures Client.HookHotkeyPart(s, hotkey, inject) == Err(UnsupportedHotkey)
  {
  }

  /** `_hook_hotkey_part` of an acceptable hotkey adds its automaton under
      the next handle. */
  lemma HookPartAccepted(s: Session, hotkey: Key, inject: seq<KeyEvent>, keys: seq<seq<int>>, p: Part)
    requires ParseHotkey(hotkey) == Ok([keys]) && keys != [] && !Client.LeadsWithNonModifier(keys)
    requires p == Part(s.nextId, keys[..|keys| - 1], keys[|keys| - 1], inject, map[])
    ensures Client.HookHotkeyPart(s, hotkey, inject) == Ok((s.(parts := s.parts + [p], nextId := s.nextId + 1), s.nextId))
  {
  }

  /** The automaton stage still to run from automaton `i` on, together
      with what has been claimed so far, gives the stage's final result. */
  ghost predicate RunPartsFrom(s: Session, e: KeyEvent, i: nat, claimed: bool, goal: (Session, bool))
    requires i <= |s.parts|
  {
    Listener.RunParts(s, e, i).0 == goal.0 && (claimed || Listener.RunParts(s, e, i).1) == goal.1
  }

  /** One automaton's turn: its step, the callback it reaches and its
      emissions delivered keep the rest of the stage on course. */
  lemma RunPartsTurn(s: Session, e: KeyEvent, i: nat, o: Outcome, fired: seq<Call>, mid: Session, t: Session,
                     claimed: bool, goal: (Session, bool))
    requires i < |s.parts| && RunPartsFrom(s, e, i, claimed, goal)
    requires o == PartStep(s.parts[i], e)
    requires fired == if o.fired then [Call(s.parts[i].id, e)] else []
    requires mid == s.(parts := s.parts[i := o.part], calls := s.calls + fired)
    requires t == Listener.Replay(mid, o.emit)
    ensures |t.parts| == |s.parts|
    ensures RunPartsFrom(t, e, i + 1, claimed || o.claimed, goal)
  {
    assert Listener.RunParts(s, e, i) == (Listener.RunParts(t, e, i + 1).0, o.claimed || Listener.RunParts(t, e, i + 1).1);
  }

  /** Past the last automaton the stage has its result. */
  lemma RunPartsDone(s: Session, e: KeyEvent, claimed: bool, goal: (Session, bool))
    requires RunPartsFrom(s, e, |s.parts|, claimed, goal)
    ensures (s, claimed) == goal
  {
  }
}
