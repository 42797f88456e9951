/** The test suite's expectations for `_hook_hotkey_part` with
    `suppress=True`. The callback `lambda e: keyboard.press(999)` is modelled
    by what it emits, the list `triggered`; events the automaton releases
    after holding them back carry no name and are compared with `Same`. */
module HotkeyCases {
  import opened Events
  import opened Keys
  import opened KeyCases
  import opened Listener
  import opened Client
  import opened DispatchFacts

  // ---------------------------------------------------------------------
  // The automaton of `ctrl+shift+a`.

  /** `ctrl+shift+a` in the tests' table: modifiers ctrl (7) and shift (5
      or 6), trigger `a` (1). */
  function Combo(id: nat, triggered: seq<KeyEvent>, states: map<int, ModState>): Part
  {
    Part(id, [[7], [5, 6]], [1], triggered, states)
  }

  lemma ComboModifier(id: nat, triggered: seq<KeyEvent>, states: map<int, ModState>, c: int)
    ensures IsModifierOf(Combo(id, triggered, states), c) <==> c == 7 || c == 5 || c == 6
  {
    var p := Combo(id, triggered, states);
    if c == 7 { assert c in p.modifiers[0]; }
    if c == 5 || c == 6 { assert c in p.modifiers[1]; }
  }

  lemma ComboHeld(down: set<int>)
    ensures AllHeld([[7], [5, 6]], down) <==> 7 in down && (5 in down || 6 in down)
  {
    var keys := [[7], [5, 6]];
    if 7 in down && (5 in down || 6 in down) {
      forall k | 0 <= k < |keys| ensures exists c :: c in keys[k] && c in down {
        if k == 0 {
          assert 7 in keys[k];
        } else if 5 in down {
          assert 5 in keys[k];
        } else {
          assert 6 in keys[k];
        }
      }
    }
    if AllHeld(keys, down) {
      var c0 :| c0 in keys[0] && c0 in down;
      var c1 :| c1 in keys[1] && c1 in down;
    }
  }

  /** What the automaton remembers of ctrl (7) and shift (5): nothing
      else is in `states`, and each is absent or in the given state. */
  predicate StatesAre(states: map<int, ModState>, ctrl: Option<ModState>, shift: Option<ModState>)
  {
    (forall c :: c in states ==> c == 7 || c == 5) &&
    (7 in states <==> ctrl.Some?) && (ctrl.Some? ==> states[7] == ctrl.value) &&
    (5 in states <==> shift.Some?) && (shift.Some? ==> states[5] == shift.value)
  }

  /** A held-back modifier settles into `into`; the others keep their state. */
  function SettledAs(m: Option<ModState>, into: ModState): Option<ModState>
  {
    if m == Some(Buffered) then Some(into) else m
  }

  /** The codes held back, in ascending order: shift's before ctrl's. */
  function HeldBack(ctrl: Option<ModState>, shift: Option<ModState>): seq<int>
  {
    (if shift == Some(Buffered) then [5] else []) + (if ctrl == Some(Buffered) then [7] else [])
  }

  /** The Downs given back for the held-back codes, shift's first. */
  function HeldBackDowns(ctrl: Option<ModState>, shift: Option<ModState>): seq<KeyEvent>
  {
    (if shift == Some(Buffered) then [KeyEvent(Down, 5, None)] else []) +
    (if ctrl == Some(Buffered) then [KeyEvent(Down, 7, None)] else [])
  }

  lemma HeldBackSynth(ctrl: Option<ModState>, shift: Option<ModState>)
    ensures Synth(Down, HeldBack(ctrl, shift)) == HeldBackDowns(ctrl, shift)
  {
    var codes, r := HeldBack(ctrl, shift), HeldBackDowns(ctrl, shift);
    assert |Synth(Down, codes)| == |r|;
    forall i | 0 <= i < |r| ensures Synth(Down, codes)[i] == r[i] {
    }
  }

  lemma SettleStates(states: map<int, ModState>, ctrl: Option<ModState>, shift: Option<ModState>, into: ModState)
    requires StatesAre(states, ctrl, shift)
    ensures StatesAre(Settle(states, into), SettledAs(ctrl, into), SettledAs(shift, into))
  {
  }

  /** The first Down of ctrl or shift is held back. */
  lemma ComboModifierDown(id: nat, triggered: seq<KeyEvent>, states: map<int, ModState>,
                          ctrl: Option<ModState>, shift: Option<ModState>, events: seq<KeyEvent>)
    requires StatesAre(states, ctrl, shift) && events != [] && events[0].kind == Down
    requires (events[0].code == 7 && ctrl.None?) || (events[0].code == 5 && shift.None?)
    ensures PartOutput(Combo(id, triggered, states), events) ==
            PartOutput(Combo(id, triggered, states[events[0].code := Buffered]), events[1..])
    ensures StatesAre(states[events[0].code := Buffered],
                      if events[0].code == 7 then Some(Buffered) else ctrl,
                      if events[0].code == 5 then Some(Buffered) else shift)
  {
    ModifierDownStep(id, triggered, states, ctrl, shift, events[0]);
    PartOutputCons(Combo(id, triggered, states), events);
  }

  /** One step of the automaton on the first Down of ctrl or shift. */
  lemma ModifierDownStep(id: nat, triggered: seq<KeyEvent>, states: map<int, ModState>,
                         ctrl: Option<ModState>, shift: Option<ModState>, e: KeyEvent)
    requires StatesAre(states, ctrl, shift) && e.kind == Down
    requires (e.code == 7 && ctrl.None?) || (e.code == 5 && shift.None?)
    ensures PartStep(Combo(id, triggered, states), e) ==
            Outcome(Combo(id, triggered, states[e.code := Buffered]), true, false, [])
  {
    ComboModifier(id, triggered, states, e.code);
    PartBuffersModifier(Combo(id, triggered, states), e);
  }

  /** One step of the automaton on `a` with ctrl and shift down. */
  lemma TriggerStep(id: nat, triggered: seq<KeyEvent>, states: map<int, ModState>,
                    ctrl: Option<ModState>, shift: Option<ModState>, e: KeyEvent)
    requires StatesAre(states, ctrl, shift) && ctrl.Some? && shift.Some?
    requires e.kind == Down && e.code == 1
    ensures PartStep(Combo(id, triggered, states), e) ==
            Outcome(Combo(id, triggered, Settle(states, Consumed)), true, true, triggered)
  {
    ComboHeld(states.Keys);
    PartFires(Combo(id, triggered, states), e);
  }

  /** `a` with ctrl and shift both down fires: the callback's events are
      all that comes out, and the modifiers held back are consumed. */
  lemma ComboTrigger(id: nat, triggered: seq<KeyEvent>, states: map<int, ModState>,
                     ctrl: Option<ModState>, shift: Option<ModState>, events: seq<KeyEvent>)
    requires StatesAre(states, ctrl, shift) && ctrl.Some? && shift.Some?
    requires events != [] && events[0].kind == Down && events[0].code == 1
    ensures PartOutput(Combo(id, triggered, states), events) ==
            triggered + PartOutput(Combo(id, triggered, Settle(states, Consumed)), events[1..])
    ensures StatesAre(Settle(states, Consumed), SettledAs(ctrl, Consumed), SettledAs(shift, Consumed))
  {
    var p := Combo(id, triggered, states);
    TriggerStep(id, triggered, states, ctrl, shift, events[0]);
    PartOutputCons(p, events);
    var o := PartStep(p, events[0]);
    assert o.claimed && o.emit == triggered && triggered + [] == triggered;
    SettleStates(states, ctrl, shift, Consumed);
  }

  /** The Up of ctrl or shift passes; when its Down was held back, that
      Down comes out first. */
  lemma ComboModifierUp(id: nat, triggered: seq<KeyEvent>, states: map<int, ModState>,
                        ctrl: Option<ModState>, shift: Option<ModState>, events: seq<KeyEvent>)
    requires StatesAre(states, ctrl, shift) && events != [] && events[0].kind == Up
    requires events[0].code == 7 || events[0].code == 5
    ensures var c := events[0].code;
            var held := if c == 7 then ctrl == Some(Buffered) else shift == Some(Buffered);
            PartOutput(Combo(id, triggered, states), events) ==
            (if held then [KeyEvent(Down, c, None)] else []) + [events[0]] +
            PartOutput(Combo(id, triggered, states - {c}), events[1..])
    ensures StatesAre(states - {events[0].code},
                      if events[0].code == 7 then None else ctrl,
                      if events[0].code == 5 then None else shift)
  {
    ModifierUpStep(id, triggered, states, ctrl, shift, events[0]);
    PartOutputCons(Combo(id, triggered, states), events);
  }

  /** One step of the automaton on the release of ctrl or shift. */
  lemma ModifierUpStep(id: nat, triggered: seq<KeyEvent>, states: map<int, ModState>,
                       ctrl: Option<ModState>, shift: Option<ModState>, e: KeyEvent)
    requires StatesAre(states, ctrl, shift) && e.kind == Up && (e.code == 7 || e.code == 5)
    ensures var held := if e.code == 7 then ctrl == Some(Buffered) else shift == Some(Buffered);
            PartStep(Combo(id, triggered, states), e) ==
            Outcome(Combo(id, triggered, states - {e.code}), false, false,
                    if held then [KeyEvent(Down, e.code, None)] else [])
  {
    ComboModifier(id, triggered, states, e.code);
  }

  /** The held-back codes in ascending order are shift's, then ctrl's. */
  lemma HeldBackSorted(states: map<int, ModState>, ctrl: Option<ModState>, shift: Option<ModState>)
    requires StatesAre(states, ctrl, shift)
    ensures BufferedCodes(states) == HeldBack(ctrl, shift)
  {
    var flushed := HeldBack(ctrl, shift);
    forall c ensures c in flushed <==> c in states && states[c] == Buffered {
      if c in states {
        assert c == 7 || c == 5;
      }
    }
    AscendingUnique(BufferedCodes(states), flushed);
  }

  /** One step of the automaton on a key that abandons the combination. */
  lemma OtherKeyStep(id: nat, triggered: seq<KeyEvent>, states: map<int, ModState>,
                     ctrl: Option<ModState>, shift: Option<ModState>, e: KeyEvent)
    requires StatesAre(states, ctrl, shift)
    requires e.code != 7 && e.code != 5 && e.code != 6
    requires e.kind == Down && e.code == 1 ==> ctrl.None? || shift.None?
    ensures PartStep(Combo(id, triggered, states), e) ==
            Outcome(Combo(id, triggered, Settle(states, Forwarded)), false, false, Synth(Down, BufferedCodes(states)))
  {
    ComboModifier(id, triggered, states, e.code);
    ComboHeld(states.Keys);
  }

  /** Any key other than the modifiers and the trigger, or the trigger
      without both modifiers, gives back what is held back, in ascending
      code order, ahead of itself; nothing stays held back. */
  lemma ComboOtherKey(id: nat, triggered: seq<KeyEvent>, states: map<int, ModState>,
                      ctrl: Option<ModState>, shift: Option<ModState>, events: seq<KeyEvent>)
    requires StatesAre(states, ctrl, shift) && events != []
    requires events[0].code != 7 && events[0].code != 5 && events[0].code != 6
    requires events[0].kind == Down && events[0].code == 1 ==> ctrl.None? || shift.None?
    ensures PartOutput(Combo(id, triggered, states), events) ==
            HeldBackDowns(ctrl, shift) + [events[0]] +
            PartOutput(Combo(id, triggered, Settle(states, Forwarded)), events[1..])
    ensures StatesAre(Settle(states, Forwarded), SettledAs(ctrl, Forwarded), SettledAs(shift, Forwarded))
  {
    OtherKeyStep(id, triggered, states, ctrl, shift, events[0]);
    HeldBackSorted(states, ctrl, shift);
    HeldBackSynth(ctrl, shift);
    PartOutputCons(Combo(id, triggered, states), events);
    SettleStates(states, ctrl, shift, Forwarded);
  }

  // ---------------------------------------------------------------------
  // Registration.

  /** A hotkey of one step whose keys before the last are modifiers becomes
      one fresh automaton. */
  lemma HookParsed(s: Session, hotkey: Key, triggered: seq<KeyEvent>, keys: seq<seq<int>>)
    requires ParseHotkey(hotkey) == Ok([keys]) && keys != [] && !LeadsWithNonModifier(keys)
    ensures HookHotkeyPart(s, hotkey, triggered) ==
            Ok((s.(parts := s.parts + [Part(s.nextId, keys[..|keys| - 1], keys[|keys| - 1], triggered, map[])],
                   nextId := s.nextId + 1), s.nextId))
  {
  }

  lemma CtrlShiftLeadsWithModifiers()
    ensures !LeadsWithNonModifier([[7], [5, 6], [1]])
  {
    var keys := [[7], [5, 6], [1]];
    forall k, c | 0 <= k < |keys| - 1 && c in keys[k] ensures IsModifierCode(c) {
      assert c == 7 || c == 5 || c == 6;
      IsModifierCodeExactly(c);
    }
  }

  /** A hotkey that reads as `ctrl+shift+a` becomes the automaton `Combo`. */
  lemma HookCombo(hotkey: Key, triggered: seq<KeyEvent>)
    requires ParseHotkey(hotkey) == Ok([[[7], [5, 6], [1]]])
    ensures HookHotkeyPart(Fresh(), hotkey, triggered) ==
            Ok((Fresh().(parts := [Combo(0, triggered, map[])], nextId := 1), 0))
  {
    var keys := [[7], [5, 6], [1]];
    CtrlShiftLeadsWithModifiers();
    HookParsed(Fresh(), hotkey, triggered, keys);
    assert keys[..2] == [[7], [5, 6]] && keys[2] == [1];
    var p := Combo(0, triggered, map[]);
    assert Fresh().parts + [p] == [p];
  }

  /** `_hook_hotkey_part('ctrl+shift+a', callback, suppress=True)` on a
      fresh session: one automaton, nothing held. */
  lemma HookCtrlShiftA(ctrl: string, shift: string, a: string, triggered: seq<KeyEvent>)
    requires ctrl == "ctrl" && shift == "shift" && a == "a"
    ensures HookHotkeyPart(Fresh(), Name(ctrl + "+" + shift + "+" + a), triggered) ==
            Ok((Fresh().(parts := [Combo(0, triggered, map[])], nextId := 1), 0))
  {
    ParseCtrlShiftA(ctrl, shift, a);
    HookCombo(Name(ctrl + "+" + shift + "+" + a), triggered);
  }

  /** `_hook_hotkey_part('a', callback, suppress=True)`: no modifiers. */
  lemma HookSingleA(a: string, upper: string, triggered: seq<KeyEvent>)
    requires a == "a" && upper == "A"
    ensures HookHotkeyPart(Fresh(), Name(a), triggered) ==
            Ok((Fresh().(parts := [Part(0, [], [1], triggered, map[])], nextId := 1), 0))
  {
    ParseSimple(a, upper);
    var keys := [[1]];
    assert keys[..0] == [];
    assert Fresh().parts + [Part(0, [], [1], triggered, map[])] == [Part(0, [], [1], triggered, map[])];
  }

  /** `test_hook_hotkey_part_fail_multistep`: `a, b` is refused. */
  lemma HotkeyPartFailMultistep(a: string, b: string, triggered: seq<KeyEvent>)
    requires a == "a" && b == "b"
    ensures HookHotkeyPart(Fresh(), Name(a + ", " + b), triggered) == Err(UnsupportedHotkey)
  {
    ParseSteps(a, b);
  }

  /** `test_hook_hotkey_part_fail_invalid_combination`: in `a+b` the key
      before the last is not a modifier, which is refused. */
  lemma HotkeyPartFailCombination(a: string, b: string, triggered: seq<KeyEvent>)
    requires a == "a" && b == "b"
    ensures HookHotkeyPart(Fresh(), Name(a + "+" + b), triggered) == Err(UnsupportedHotkey)
  {
    ParseAPlusB(a, b);
    IsModifierCodeExactly(1);
    var keys := [[1], [2]];
    assert 1 in keys[0] && !IsModifierCode(1);
  }

  // ---------------------------------------------------------------------
  // The harness's `do` on the registered automaton.

  // ---------------------------------------------------------------------
  // `ctrl+shift+a` through the tests' event sequences. Only kinds and codes
  // matter to the automaton; names pass through untouched.

  /** ctrl then shift go down: both are held back, nothing comes out. */
  lemma CtrlThenShift(id: nat, triggered: seq<KeyEvent>, events: seq<KeyEvent>)
    requires |events| >= 2
    requires events[0].kind == Down && events[0].code == 7 && events[1].kind == Down && events[1].code == 5
    ensures PartOutput(Combo(id, triggered, map[]), events) ==
            PartOutput(Combo(id, triggered, map[7 := Buffered][5 := Buffered]), events[2..])
    ensures StatesAre(map[7 := Buffered][5 := Buffered], Some(Buffered), Some(Buffered))
  {
    var none: map<int, ModState> := map[];
    ComboModifierDown(id, triggered, none, None, None, events);
    ComboModifierDown(id, triggered, none[7 := Buffered], Some(Buffered), None, events[1..]);
    assert events[1..][1..] == events[2..];
  }

  /** shift then ctrl go down: the same, in the other order. */
  lemma ShiftThenCtrl(id: nat, triggered: seq<KeyEvent>, events: seq<KeyEvent>)
    requires |events| >= 2
    requires events[0].kind == Down && events[0].code == 5 && events[1].kind == Down && events[1].code == 7
    ensures PartOutput(Combo(id, triggered, map[]), events) ==
            PartOutput(Combo(id, triggered, map[5 := Buffered][7 := Buffered]), events[2..])
    ensures StatesAre(map[5 := Buffered][7 := Buffered], Some(Buffered), Some(Buffered))
  {
    var none: map<int, ModState> := map[];
    ComboModifierDown(id, triggered, none, None, None, events);
    ComboModifierDown(id, triggered, none[5 := Buffered], None, Some(Buffered), events[1..]);
    assert events[1..][1..] == events[2..];
  }

  /** With both modifiers held back, `a` fires and nothing else comes out. */
  lemma TriggerLast(id: nat, triggered: seq<KeyEvent>, states: map<int, ModState>, events: seq<KeyEvent>)
    requires StatesAre(states, Some(Buffered), Some(Buffered))
    requires |events| == 1 && events[0].kind == Down && events[0].code == 1
    ensures PartOutput(Combo(id, triggered, states), events) == triggered
  {
    ComboTrigger(id, triggered, states, Some(Buffered), Some(Buffered), events);
    assert events[1..] == [];
    assert triggered + PartOutput(Combo(id, triggered, Settle(states, Consumed)), []) == triggered;
  }

  /** With both modifiers held back, shift up and then `a`: shift's Down
      comes back ahead of its Up, and ctrl's Down ahead of `a`. */
  lemma ShiftUpThenTrigger(triggered: seq<KeyEvent>, states: map<int, ModState>, events: seq<KeyEvent>)
    requires StatesAre(states, Some(Buffered), Some(Buffered))
    requires |events| == 2
    requires events[0].kind == Up && events[0].code == 5 && events[1].kind == Down && events[1].code == 1
    ensures PartOutput(Combo(0, triggered, states), events) ==
            [KeyEvent(Down, 5, None), events[0], KeyEvent(Down, 7, None), events[1]]
  {
    var rest := states - {5};
    ShiftUpBothHeld(triggered, states, events);
    assert events[1..] == [events[1]];
    LoneCtrlThenTrigger(triggered, rest, events[1]);
  }

  /** With both modifiers held back, shift up gives back shift's Down ahead
      of its Up, and leaves ctrl alone held back. */
  lemma ShiftUpBothHeld(triggered: seq<KeyEvent>, states: map<int, ModState>, events: seq<KeyEvent>)
    requires StatesAre(states, Some(Buffered), Some(Buffered))
    requires events != [] && events[0].kind == Up && events[0].code == 5
    ensures PartOutput(Combo(0, triggered, states), events) ==
            [KeyEvent(Down, 5, None), events[0]] + PartOutput(Combo(0, triggered, states - {5}), events[1..])
    ensures StatesAre(states - {5}, Some(Buffered), None)
  {
    var p := Combo(0, triggered, states);
    var o := PartStep(p, events[0]);
    ModifierUpStep(0, triggered, states, Some(Buffered), Some(Buffered), events[0]);
    assert o == Outcome(Combo(0, triggered, states - {5}), false, false, [KeyEvent(Down, 5, None)]);
    PartOutputCons(p, events);
    assert o.emit + [events[0]] == [KeyEvent(Down, 5, None), events[0]];
    ShiftReleased(states);
  }

  lemma ShiftReleased(states: map<int, ModState>)
    requires StatesAre(states, Some(Buffered), Some(Buffered))
    ensures StatesAre(states - {5}, Some(Buffered), None)
  {
  }

  /** With only ctrl held back, `a` gives back ctrl's Down ahead of itself. */
  lemma LoneCtrlThenTrigger(triggered: seq<KeyEvent>, states: map<int, ModState>, e: KeyEvent)
    requires StatesAre(states, Some(Buffered), None) && e.kind == Down && e.code == 1
    ensures PartOutput(Combo(0, triggered, states), [e]) == [KeyEvent(Down, 7, None), e]
  {
    ComboOtherKey(0, triggered, states, Some(Buffered), None, [e]);
    assert [e][1..] == [];
    assert HeldBackDowns(Some(Buffered), None) == [KeyEvent(Down, 7, None)];
  }

  /** ctrl and shift down, shift up, `a` down. */
  lemma UnrelatedModifierOutput(triggered: seq<KeyEvent>, events: seq<KeyEvent>)
    requires |events| == 4
    requires events[0].kind == Down && events[0].code == 7 && events[1].kind == Down && events[1].code == 5
    requires events[2].kind == Up && events[2].code == 5 && events[3].kind == Down && events[3].code == 1
    ensures PartOutput(Combo(0, triggered, map[]), events) ==
            [KeyEvent(Down, 5, None), events[2], KeyEvent(Down, 7, None), events[3]]
  {
    CtrlThenShift(0, triggered, events);
    ShiftUpThenTrigger(triggered, map[7 := Buffered][5 := Buffered], events[2..]);
  }

  /** A tap of `b` with both modifiers held back gives back shift's and
      ctrl's Downs, in ascending code order, ahead of it; afterwards both
      modifiers count as passed on. */
  lemma TapWhileHeld(id: nat, triggered: seq<KeyEvent>, states: map<int, ModState>, events: seq<KeyEvent>)
    requires StatesAre(states, Some(Buffered), Some(Buffered))
    requires |events| >= 2
    requires events[0].kind == Down && events[0].code == 2 && events[1].kind == Up && events[1].code == 2
    ensures var after := Settle(Settle(states, Forwarded), Forwarded);
            PartOutput(Combo(id, triggered, states), events) ==
            [KeyEvent(Down, 5, None), KeyEvent(Down, 7, None), events[0], events[1]] +
            PartOutput(Combo(id, triggered, after), events[2..]) &&
            StatesAre(after, Some(Forwarded), Some(Forwarded))
  {
    var passed := Settle(states, Forwarded);
    ComboOtherKey(id, triggered, states, Some(Buffered), Some(Buffered), events);
    ComboOtherKey(id, triggered, passed, Some(Forwarded), Some(Forwarded), events[1..]);
    assert events[1..][1..] == events[2..];
    var head := [KeyEvent(Down, 5, None), KeyEvent(Down, 7, None), events[0]];
    assert HeldBackDowns(Some(Buffered), Some(Buffered)) + [events[0]] == head;
    assert HeldBackDowns(Some(Forwarded), Some(Forwarded)) + [events[1]] == [events[1]];
    ConcatAssoc(head, [events[1]], PartOutput(Combo(id, triggered, Settle(passed, Forwarded)), events[2..]));
    assert head + [events[1]] == [KeyEvent(Down, 5, None), KeyEvent(Down, 7, None), events[0], events[1]];
  }

  /** ctrl and shift down, then a tap of `b`. */
  lemma UnrelatedKeyFailsOutput(triggered: seq<KeyEvent>, events: seq<KeyEvent>)
    requires |events| == 4
    requires events[0].kind == Down && events[0].code == 7 && events[1].kind == Down && events[1].code == 5
    requires events[2].kind == Down && events[2].code == 2 && events[3].kind == Up && events[3].code == 2
    ensures PartOutput(Combo(0, triggered, map[]), events) ==
            [KeyEvent(Down, 5, None), KeyEvent(Down, 7, None), events[2], events[3]]
  {
    var held := map[7 := Buffered][5 := Buffered];
    CtrlThenShift(0, triggered, events);
    TapWhileHeld(0, triggered, held, events[2..]);
    assert events[2..][2..] == [];
    var out := [KeyEvent(Down, 5, None), KeyEvent(Down, 7, None), events[2], events[3]];
    assert out + PartOutput(Combo(0, triggered, Settle(Settle(held, Forwarded), Forwarded)), []) == out;
  }

  /** Releasing ctrl and then shift once they are passed on passes both
      releases and nothing else. */
  lemma ReleasePassedOn(id: nat, triggered: seq<KeyEvent>, states: map<int, ModState>, events: seq<KeyEvent>)
    requires StatesAre(states, Some(Forwarded), Some(Forwarded))
    requires |events| == 2 && events[0].kind == Up && events[0].code == 7 && events[1].kind == Up && events[1].code == 5
    ensures PartOutput(Combo(id, triggered, states), events) == events
  {
    ComboModifierUp(id, triggered, states, Some(Forwarded), Some(Forwarded), events);
    ComboModifierUp(id, triggered, states - {7}, None, Some(Forwarded), events[1..]);
    assert events[1..][1..] == [];
    assert [events[1]] + PartOutput(Combo(id, triggered, states - {7} - {5}), []) == [events[1]];
    assert [events[0]] + [events[1]] == events;
  }

  /** Once passed on, ctrl and shift still make `a` fire, and their
      releases pass. */
  lemma TriggerPassedOn(id: nat, triggered: seq<KeyEvent>, states: map<int, ModState>, events: seq<KeyEvent>)
    requires StatesAre(states, Some(Forwarded), Some(Forwarded))
    requires |events| >= 1 && events[0].kind == Down && events[0].code == 1
    requires |events| > 1 ==> |events| == 3 && events[1].kind == Up && events[1].code == 7 &&
                              events[2].kind == Up && events[2].code == 5
    ensures PartOutput(Combo(id, triggered, states), events) == triggered + events[1..]
  {
    ComboTrigger(id, triggered, states, Some(Forwarded), Some(Forwarded), events);
    if |events| == 1 {
      assert events[1..] == [];
    } else {
      ReleasePassedOn(id, triggered, Settle(states, Consumed), events[1..]);
    }
  }

  /** ctrl and shift down, a tap of `b`, then `a`, then (when
      `released`) ctrl and shift up. */
  lemma UnrelatedKeyOutput(triggered: seq<KeyEvent>, events: seq<KeyEvent>)
    requires |events| == 5 || |events| == 7
    requires events[0].kind == Down && events[0].code == 7 && events[1].kind == Down && events[1].code == 5
    requires events[2].kind == Down && events[2].code == 2 && events[3].kind == Up && events[3].code == 2
    requires events[4].kind == Down && events[4].code == 1
    requires |events| == 7 ==> events[5].kind == Up && events[5].code == 7 && events[6].kind == Up && events[6].code == 5
    ensures PartOutput(Combo(0, triggered, map[]), events) ==
            [KeyEvent(Down, 5, None), KeyEvent(Down, 7, None), events[2], events[3]] + triggered + events[5..]
  {
    var held := map[7 := Buffered][5 := Buffered];
    CtrlThenShift(0, triggered, events);
    TapWhileHeld(0, triggered, held, events[2..]);
    assert events[2..][2..] == events[4..];
    TriggerPassedOn(0, triggered, Settle(Settle(held, Forwarded), Forwarded), events[4..]);
    assert events[4..][1..] == events[5..];
    ConcatAssoc([KeyEvent(Down, 5, None), KeyEvent(Down, 7, None), events[2], events[3]], triggered, events[5..]);
  }

  // ---------------------------------------------------------------------
  // The harness's `do` on the registered automaton.

  /** The session holds one automaton and no other rule or hook, and has
      emitted nothing since the last `do`. */
  predicate OnlyPart(s: Session, p: Part)
  {
    PartOnly(s) && s.parts == [p] && s.output == []
  }

  /** What `do` gives back is what the automaton lets through. */
  lemma DoOnlyPart(s: Session, p: Part, events: seq<KeyEvent>)
    requires OnlyPart(s, p)
    ensures Do(s, events).0 == PartOutput(p, events)
  {
    InjectPartOnly(s, events);
  }

  /** `test_hook_hotkey_part_suppress_single`: `d_a` fires, and only the
      callback's events come out. */
  lemma HotkeyPartSingle(a: string, triggered: seq<KeyEvent>, s1: Session)
    requires a == "a" && OnlyPart(s1, Part(0, [], [1], triggered, map[]))
    ensures Do(s1, [KeyEvent(Down, 1, Some(a))]).0 == triggered
  {
    var da := KeyEvent(Down, 1, Some(a));
    var p := Part(0, [], [1], triggered, map[]);
    DoOnlyPart(s1, p, [da]);
    assert AllHeld(p.modifiers, p.states.Keys);
    PartFires(p, da);
    PartOutputCons(p, [da]);
  }

  /** `test_hook_hotkey_part_suppress_with_modifiers`: `d_ctrl + d_shift +
      d_a` fires, and only the callback's events come out. */
  lemma HotkeyPartWithModifiers(leftCtrl: string, leftShift: string, a: string, triggered: seq<KeyEvent>, s1: Session)
    requires leftCtrl == "left ctrl" && leftShift == "left shift" && a == "a"
    requires OnlyPart(s1, Combo(0, triggered, map[]))
    ensures Do(s1, [KeyEvent(Down, 7, Some(leftCtrl)), KeyEvent(Down, 5, Some(leftShift)), KeyEvent(Down, 1, Some(a))]).0 == triggered
  {
    var evs := [KeyEvent(Down, 7, Some(leftCtrl)), KeyEvent(Down, 5, Some(leftShift)), KeyEvent(Down, 1, Some(a))];
    DoOnlyPart(s1, Combo(0, triggered, map[]), evs);
    CtrlThenShift(0, triggered, evs);
    TriggerLast(0, triggered, map[7 := Buffered][5 := Buffered], evs[2..]);
  }

  /** `test_hook_hotkey_part_suppress_with_modifiers_out_of_order`: `d_shift
      + d_ctrl + d_a` fires too. */
  lemma HotkeyPartOutOfOrder(leftCtrl: string, leftShift: string, a: string, triggered: seq<KeyEvent>, s1: Session)
    requires leftCtrl == "left ctrl" && leftShift == "left shift" && a == "a"
    requires OnlyPart(s1, Combo(0, triggered, map[]))
    ensures Do(s1, [KeyEvent(Down, 5, Some(leftShift)), KeyEvent(Down, 7, Some(leftCtrl)), KeyEvent(Down, 1, Some(a))]).0 == triggered
  {
    var evs := [KeyEvent(Down, 5, Some(leftShift)), KeyEvent(Down, 7, Some(leftCtrl)), KeyEvent(Down, 1, Some(a))];
    DoOnlyPart(s1, Combo(0, triggered, map[]), evs);
    ShiftThenCtrl(0, triggered, evs);
    TriggerLast(0, triggered, map[5 := Buffered][7 := Buffered], evs[2..]);
  }

  /** `test_hook_hotkey_part_suppress_with_modifiers_fail_unrelated_modifier`. */
  lemma HotkeyPartUnrelatedModifier(leftCtrl: string, leftShift: string, a: string, triggered: seq<KeyEvent>, s1: Session)
    requires leftCtrl == "left ctrl" && leftShift == "left shift" && a == "a"
    requires OnlyPart(s1, Combo(0, triggered, map[]))
    ensures var dctrl, dshift := KeyEvent(Down, 7, Some(leftCtrl)), KeyEvent(Down, 5, Some(leftShift));
            var ushift, da := KeyEvent(Up, 5, Some(leftShift)), KeyEvent(Down, 1, Some(a));
            SameEvents(Do(s1, [dctrl, dshift, ushift, da]).0, [dshift, ushift, dctrl, da])
  {
    var dctrl, dshift := KeyEvent(Down, 7, Some(leftCtrl)), KeyEvent(Down, 5, Some(leftShift));
    var ushift, da := KeyEvent(Up, 5, Some(leftShift)), KeyEvent(Down, 1, Some(a));
    var evs := [dctrl, dshift, ushift, da];
    DoOnlyPart(s1, Combo(0, triggered, map[]), evs);
    UnrelatedModifierOutput(triggered, evs);
  }

  /** `test_hook_hotkey_part_suppress_with_modifiers_fail_unrelated_key`. */
  lemma HotkeyPartUnrelatedKeyFails(leftCtrl: string, leftShift: string, b: string, triggered: seq<KeyEvent>, s1: Session)
    requires leftCtrl == "left ctrl" && leftShift == "left shift" && b == "b"
    requires OnlyPart(s1, Combo(0, triggered, map[]))
    ensures var dctrl, dshift := KeyEvent(Down, 7, Some(leftCtrl)), KeyEvent(Down, 5, Some(leftShift));
            var db, ub := KeyEvent(Down, 2, Some(b)), KeyEvent(Up, 2, Some(b));
            SameEvents(Do(s1, [dctrl, dshift, db, ub]).0, [dshift, dctrl, db, ub])
  {
    var dctrl, dshift := KeyEvent(Down, 7, Some(leftCtrl)), KeyEvent(Down, 5, Some(leftShift));
    var db, ub := KeyEvent(Down, 2, Some(b)), KeyEvent(Up, 2, Some(b));
    var evs := [dctrl, dshift, db, ub];
    DoOnlyPart(s1, Combo(0, triggered, map[]), evs);
    UnrelatedKeyFailsOutput(triggered, evs);
  }

  /** `test_hook_hotkey_part_suppress_with_modifiers_unrelated_key`: the
      modifiers come back, yet a later `a` still fires. */
  lemma HotkeyPartUnrelatedKey(leftCtrl: string, leftShift: string, a: string, b: string, triggered: seq<KeyEvent>, s1: Session)
    requires leftCtrl == "left ctrl" && leftShift == "left shift" && a == "a" && b == "b"
    requires OnlyPart(s1, Combo(0, triggered, map[]))
    ensures var dctrl, dshift := KeyEvent(Down, 7, Some(leftCtrl)), KeyEvent(Down, 5, Some(leftShift));
            var db, ub, da := KeyEvent(Down, 2, Some(b)), KeyEvent(Up, 2, Some(b)), KeyEvent(Down, 1, Some(a));
            SameEvents(Do(s1, [dctrl, dshift, db, ub, da]).0, [dshift, dctrl, db, ub] + triggered)
  {
    var dctrl, dshift := KeyEvent(Down, 7, Some(leftCtrl)), KeyEvent(Down, 5, Some(leftShift));
    var db, ub, da := KeyEvent(Down, 2, Some(b)), KeyEvent(Up, 2, Some(b)), KeyEvent(Down, 1, Some(a));
    var evs := [dctrl, dshift, db, ub, da];
    DoOnlyPart(s1, Combo(0, triggered, map[]), evs);
    UnrelatedKeyOutput(triggered, evs);
    var out := [KeyEvent(Down, 5, None), KeyEvent(Down, 7, None), db, ub];
    assert evs[5..] == [];
    assert out + triggered + [] == out + triggered;
    SameEventsConcat(out, triggered, [dshift, dctrl, db, ub], triggered);
  }

  /** `test_hook_hotkey_part_suppress_with_modifiers_release`: after the
      callback, releasing ctrl and shift passes both releases. */
  lemma HotkeyPartRelease(leftCtrl: string, leftShift: string, a: string, b: string, triggered: seq<KeyEvent>, s1: Session)
    requires leftCtrl == "left ctrl" && leftShift == "left shift" && a == "a" && b == "b"
    requires OnlyPart(s1, Combo(0, triggered, map[]))
    ensures var dctrl, dshift := KeyEvent(Down, 7, Some(leftCtrl)), KeyEvent(Down, 5, Some(leftShift));
            var uctrl, ushift := KeyEvent(Up, 7, Some(leftCtrl)), KeyEvent(Up, 5, Some(leftShift));
            var db, ub, da := KeyEvent(Down, 2, Some(b)), KeyEvent(Up, 2, Some(b)), KeyEvent(Down, 1, Some(a));
            SameEvents(Do(s1, [dctrl, dshift, db, ub, da, uctrl, ushift]).0,
                       [dshift, dctrl, db, ub] + triggered + [uctrl, ushift])
  {
    var dctrl, dshift := KeyEvent(Down, 7, Some(leftCtrl)), KeyEvent(Down, 5, Some(leftShift));
    var uctrl, ushift := KeyEvent(Up, 7, Some(leftCtrl)), KeyEvent(Up, 5, Some(leftShift));
    var db, ub, da := KeyEvent(Down, 2, Some(b)), KeyEvent(Up, 2, Some(b)), KeyEvent(Down, 1, Some(a));
    var evs := [dctrl, dshift, db, ub, da, uctrl, ushift];
    DoOnlyPart(s1, Combo(0, triggered, map[]), evs);
    UnrelatedKeyOutput(triggered, evs);
    assert evs[5..] == [uctrl, ushift];
    var out := [KeyEvent(Down, 5, None), KeyEvent(Down, 7, None), db, ub];
    SameEventsConcat(out, triggered, [dshift, dctrl, db, ub], triggered);
    SameEventsConcat(out + triggered, [uctrl, ushift], [dshift, dctrl, db, ub] + triggered, [uctrl, ushift]);
  }
}
