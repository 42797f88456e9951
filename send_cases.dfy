/** The test suite's expectations for `is_pressed`, `send` and its variants,
    the state restorers, `write`, recording, `play` and `get_hotkey_name()`
    on the pressed keys. Each concrete name is a lemma argument fixed by the
    precondition, as in the key table cases. Expected lists are written with
    the events of the test's shortcuts (`d_a` is `KeyEvent(Down, 1,
    Some("a"))`, see `Shortcuts`); the assertions compare events with `Same`,
    which ignores the name the operating system's synthetic events lack. */
module SendCases {
  import opened Events
  import opened Keys
  import opened KeyFacts
  import opened KeyCases
  import opened Extractors
  import opened ExtractorCases
  import opened Listener
  import opened Client
  import opened DispatchFacts
  import opened ClientFacts

  // ---------------------------------------------------------------------
  // The shortcuts and the harness.

  /** `d_a`, `u_b`, `d_ctrl`, `u_shift`, ...: `make_event(kind, name)` of the
      table names the shortcuts use. */
  lemma Shortcuts(a: string, b: string, c: string, leftCtrl: string, leftShift: string, kind: EventType)
    requires a == "a" && b == "b" && c == "c" && leftCtrl == "left ctrl" && leftShift == "left shift"
    ensures MakeEvent(kind, a) == KeyEvent(kind, 1, Some(a))
    ensures MakeEvent(kind, b) == KeyEvent(kind, 2, Some(b))
    ensures MakeEvent(kind, c) == KeyEvent(kind, 3, Some(c))
    ensures MakeEvent(kind, leftCtrl) == KeyEvent(kind, 7, Some(leftCtrl))
    ensures MakeEvent(kind, leftShift) == KeyEvent(kind, 5, Some(leftShift))
  {
  }

  /** The harness's `do` on a session nothing can hold events back in: every
      event is forwarded, the pressed state follows them. */
  lemma DoTransparent(s: Session, events: seq<KeyEvent>)
    requires Transparent(s)
    ensures var (out, t) := Do(s, events);
            Transparent(t) && out == s.output + events && t.pressed == TrackAll(s.pressed, events) &&
            t.hooks == s.hooks && t.outstanding == s.outstanding && t.recording.None? == s.recording.None?
  {
    InjectTransparent(s, events);
    InjectRecords(s, events);
  }

  /** The codes `send` chooses for a one-step hotkey: the first of each key. */
  lemma SendOfStep(s: Session, hotkey: Key, keys: seq<seq<int>>, step: seq<int>, doPress: bool, doRelease: bool)
    requires ParseHotkey(hotkey) == Ok([keys])
    requires |step| == |keys| && forall j :: 0 <= j < |keys| ==> keys[j] != [] && keys[j][0] == step[j]
    ensures Send(s, hotkey, doPress, doRelease) == Ok(Inject(s, SendEvents([step], doPress, doRelease)))
  {
    var chosen := Chosen([keys]);
    assert chosen.Ok?;
    assert chosen.value == [step] by {
      var first := chosen.value[0];
      assert |chosen.value| == 1 && |first| == |step|;
      forall j | 0 <= j < |step| ensures first[j] == step[j] {
        assert first[j] == [keys][0][j][0];
      }
      assert first == step;
    }
  }

  /** A send of one step on a transparent session emits the chosen codes'
      presses in order and their releases in reverse order. */
  lemma SendStep(s: Session, hotkey: Key, keys: seq<seq<int>>, step: seq<int>, doPress: bool, doRelease: bool)
    requires Transparent(s) && ParseHotkey(hotkey) == Ok([keys])
    requires |step| == |keys| && forall j :: 0 <= j < |keys| ==> keys[j] != [] && keys[j][0] == step[j]
    ensures Send(s, hotkey, doPress, doRelease).Ok?
    ensures var t := Send(s, hotkey, doPress, doRelease).value;
            Transparent(t) &&
            t.output == s.output + (if doPress then Synth(Down, step) else []) +
                                   (if doRelease then Synth(Up, Reversed(step)) else [])
  {
    var ev := SendEvents([step], doPress, doRelease);
    SendOfStep(s, hotkey, keys, step, doPress, doRelease);
    SendOneStep(step, doPress, doRelease);
    InjectTransparent(s, ev);
    assert Send(s, hotkey, doPress, doRelease).value == Inject(s, ev);
  }

  lemma TrackAllOne(p: Pressed, e1: KeyEvent)
    ensures TrackAll(p, [e1]) == Track(p, e1)
  {
    assert [e1][1..] == [];
  }

  lemma TrackAllTwo(p: Pressed, e1: KeyEvent, e2: KeyEvent)
    ensures TrackAll(p, [e1, e2]) == Track(Track(p, e1), e2)
  {
    assert [e1, e2][1..] == [e2];
    TrackAllOne(Track(p, e1), e2);
  }

  lemma TrackAllThree(p: Pressed, e1: KeyEvent, e2: KeyEvent, e3: KeyEvent)
    ensures TrackAll(p, [e1, e2, e3]) == Track(Track(Track(p, e1), e2), e3)
  {
    assert [e1, e2, e3][1..] == [e2, e3];
    TrackAllTwo(Track(p, e1), e2, e3);
  }

  /** A one-step hotkey is pressed when each of its keys has a code down. */
  lemma IsPressedStep(s: Session, key: Key, keys: seq<seq<int>>)
    requires !key.Code? && ParseHotkey(key) == Ok([keys])
    ensures IsPressed(s, key) == Ok(AllHeld(keys, s.pressed.Keys))
  {
    AllHeldPressed(keys, s.pressed);
  }

  lemma AllHeldOfOne(codes: seq<int>, down: set<int>)
    ensures AllHeld([codes], down) <==> exists c :: c in codes && c in down
  {
    assert [codes][0] == codes;
  }

  lemma AllHeldOfTwo(k1: seq<int>, k2: seq<int>, down: set<int>)
    ensures AllHeld([k1, k2], down) <==> (exists c :: c in k1 && c in down) && (exists c :: c in k2 && c in down)
  {
    assert [k1, k2][0] == k1 && [k1, k2][1] == k2;
  }

  // ---------------------------------------------------------------------
  // is_pressed.

  /** `test_is_pressed_none`: nothing is down at first. */
  lemma IsPressedNone(a: string)
    requires a == "a"
    ensures IsPressed(Fresh(), Name(a)) == Ok(false)
  {
    ParseSimple(a, "A");
    IsPressedStep(Fresh(), Name(a), [[1]]);
    AllHeldOfOne([1], Fresh().pressed.Keys);
    assert 1 !in Fresh().pressed;
  }

  /** `test_is_pressed_true` and the three scan-code variants after `d_a`. */
  lemma IsPressedAfterPress(a: string)
    requires a == "a"
    ensures var s := Do(Fresh(), [KeyEvent(Down, 1, Some(a))]).1;
            IsPressed(s, Name(a)) == Ok(true) && IsPressed(s, Code(1)) == Ok(true) &&
            IsPressed(s, Code(2)) == Ok(false) && IsPressed(s, Code(-1)) == Ok(false)
  {
    ParseSimple(a, "A");
    var e1 := KeyEvent(Down, 1, Some(a));
    DoTransparent(Fresh(), [e1]);
    TrackAllOne(map[], e1);
    var s := Do(Fresh(), [e1]).1;
    IsPressedStep(s, Name(a), [[1]]);
    AllHeldOfOne([1], s.pressed.Keys);
    assert 1 in [1] && 1 in s.pressed.Keys;
  }

  /** `test_is_pressed_false`: after `d_a + u_a + d_b` only `b` is down. */
  lemma IsPressedAfterRelease(a: string, b: string)
    requires a == "a" && b == "b"
    ensures var s := Do(Fresh(), [KeyEvent(Down, 1, Some(a)), KeyEvent(Up, 1, Some(a)), KeyEvent(Down, 2, Some(b))]).1;
            IsPressed(s, Name(a)) == Ok(false) && IsPressed(s, Name(b)) == Ok(true)
  {
    ParseSimple(a, "A");
    ParseLetterB(b);
    var e1, e2, e3 := KeyEvent(Down, 1, Some(a)), KeyEvent(Up, 1, Some(a)), KeyEvent(Down, 2, Some(b));
    DoTransparent(Fresh(), [e1, e2, e3]);
    TrackAllThree(map[], e1, e2, e3);
    var s := Do(Fresh(), [e1, e2, e3]).1;
    IsPressedStep(s, Name(a), [[1]]);
    IsPressedStep(s, Name(b), [[2]]);
    AllHeldOfOne([1], s.pressed.Keys);
    AllHeldOfOne([2], s.pressed.Keys);
    assert 1 !in s.pressed && 2 in s.pressed;
    assert 2 in [2] && 2 in s.pressed.Keys;
  }

  /** `test_is_pressed_hotkey_true`: `shift+a` is pressed while the left
      shift and `a` are down. */
  lemma IsPressedHotkey(shift: string, a: string, leftShift: string)
    requires shift == "shift" && a == "a" && leftShift == "left shift"
    ensures IsPressed(Do(Fresh(), [KeyEvent(Down, 5, Some(leftShift)), KeyEvent(Down, 1, Some(a))]).1,
                      Name(shift + "+" + a)) == Ok(true)
  {
    ParseShiftLetter(shift, a, 1);
    var e1, e2 := KeyEvent(Down, 5, Some(leftShift)), KeyEvent(Down, 1, Some(a));
    DoTransparent(Fresh(), [e1, e2]);
    TrackAllTwo(map[], e1, e2);
    var s := Do(Fresh(), [e1, e2]).1;
    IsPressedStep(s, Name(shift + "+" + a), [[5, 6], [1]]);
    AllHeldOfTwo([5, 6], [1], s.pressed.Keys);
    assert 5 in [5, 6] && 5 in s.pressed.Keys;
    assert 1 in [1] && 1 in s.pressed.Keys;
  }

  /** `test_is_pressed_hotkey_false`: no longer once `a` goes up. */
  lemma IsPressedHotkeyReleased(shift: string, a: string, leftShift: string)
    requires shift == "shift" && a == "a" && leftShift == "left shift"
    ensures IsPressed(Do(Fresh(), [KeyEvent(Down, 5, Some(leftShift)), KeyEvent(Down, 1, Some(a)), KeyEvent(Up, 1, Some(a))]).1,
                      Name(shift + "+" + a)) == Ok(false)
  {
    ParseShiftLetter(shift, a, 1);
    var e1, e2, e3 := KeyEvent(Down, 5, Some(leftShift)), KeyEvent(Down, 1, Some(a)), KeyEvent(Up, 1, Some(a));
    DoTransparent(Fresh(), [e1, e2, e3]);
    TrackAllThree(map[], e1, e2, e3);
    var s := Do(Fresh(), [e1, e2, e3]).1;
    IsPressedStep(s, Name(shift + "+" + a), [[5, 6], [1]]);
    AllHeldOfTwo([5, 6], [1], s.pressed.Keys);
    assert 1 !in s.pressed;
  }

  /** `test_is_pressed_multi_step_fail`: a hotkey of two steps is refused. */
  lemma IsPressedMultiStep(a: string, b: string)
    requires a == "a" && b == "b"
    ensures IsPressed(Do(Fresh(), [KeyEvent(Up, 1, Some(a)), KeyEvent(Down, 1, Some(a))]).1, Name(a + ", " + b)) ==
            Err(MultiStepQuery)
  {
    ParseSteps(a, b);
  }

  // ---------------------------------------------------------------------
  // send, press, release.

  /** `test_send_single_press_release`, `_press`, `_release` and `_none`. */
  lemma SendSingle(a: string, doPress: bool, doRelease: bool)
    requires a == "a"
    ensures Send(Fresh(), Name(a), doPress, doRelease).Ok?
    ensures SameEvents(Do(Send(Fresh(), Name(a), doPress, doRelease).value, []).0,
                       (if doPress then [KeyEvent(Down, 1, Some(a))] else []) +
                       (if doRelease then [KeyEvent(Up, 1, Some(a))] else []))
  {
    ParseSimple(a, "A");
    SendStep(Fresh(), Name(a), [[1]], [1], doPress, doRelease);
    var t := Send(Fresh(), Name(a), doPress, doRelease).value;
    assert Do(t, []).0 == t.output;
    SingleEvents(t.output, a, doPress, doRelease);
  }

  lemma SingleEvents(out: seq<KeyEvent>, a: string, doPress: bool, doRelease: bool)
    requires a == "a"
    requires out == [] + (if doPress then Synth(Down, [1]) else []) + (if doRelease then Synth(Up, Reversed([1])) else [])
    ensures SameEvents(out, (if doPress then [KeyEvent(Down, 1, Some(a))] else []) +
                            (if doRelease then [KeyEvent(Up, 1, Some(a))] else []))
  {
    assert Reversed([1]) == [1];
  }

  /** `test_press`, `test_release` and `test_press_and_release`. */
  lemma PressReleaseSingle(a: string)
    requires a == "a"
    ensures Press(Fresh(), Name(a)).Ok? && Release(Fresh(), Name(a)).Ok? && PressAndRelease(Fresh(), Name(a)).Ok?
    ensures SameEvents(Press(Fresh(), Name(a)).value.output, [KeyEvent(Down, 1, Some(a))])
    ensures SameEvents(Release(Fresh(), Name(a)).value.output, [KeyEvent(Up, 1, Some(a))])
    ensures SameEvents(PressAndRelease(Fresh(), Name(a)).value.output, [KeyEvent(Down, 1, Some(a)), KeyEvent(Up, 1, Some(a))])
  {
    SendSingle(a, true, false);
    SendSingle(a, false, true);
    SendSingle(a, true, true);
  }

  /** `test_send_modifier_press_release`: `ctrl+a` presses ctrl, then `a`,
      and releases them in reverse order. */
  lemma SendCtrlA(ctrl: string, a: string, leftCtrl: string)
    requires ctrl == "ctrl" && a == "a" && leftCtrl == "left ctrl"
    ensures Send(Fresh(), Name(ctrl + "+" + a), true, true).Ok?
    ensures SameEvents(Send(Fresh(), Name(ctrl + "+" + a), true, true).value.output,
                       [KeyEvent(Down, 7, Some(leftCtrl)), KeyEvent(Down, 1, Some(a)),
                        KeyEvent(Up, 1, Some(a)), KeyEvent(Up, 7, Some(leftCtrl))])
  {
    ParseCtrlA(ctrl, a);
    SendStep(Fresh(), Name(ctrl + "+" + a), [[7], [1]], [7, 1], true, true);
    var t := Send(Fresh(), Name(ctrl + "+" + a), true, true).value;
    PressReleaseOfTwo(7, 1);
    CtrlAEvents(t.output, a, leftCtrl);
  }

  lemma CtrlAEvents(out: seq<KeyEvent>, a: string, leftCtrl: string)
    requires a == "a" && leftCtrl == "left ctrl"
    requires out == [] + [KeyEvent(Down, 7, None), KeyEvent(Down, 1, None), KeyEvent(Up, 1, None), KeyEvent(Up, 7, None)]
    ensures SameEvents(out, [KeyEvent(Down, 7, Some(leftCtrl)), KeyEvent(Down, 1, Some(a)),
                             KeyEvent(Up, 1, Some(a)), KeyEvent(Up, 7, Some(leftCtrl))])
  {
  }

  lemma PressReleaseOfTwo(c1: int, c2: int)
    ensures Synth(Down, [c1, c2]) + Synth(Up, Reversed([c1, c2])) ==
            [KeyEvent(Down, c1, None), KeyEvent(Down, c2, None), KeyEvent(Up, c2, None), KeyEvent(Up, c1, None)]
  {
    assert Reversed([c1, c2]) == [c2, c1];
  }

  /** `test_send_modifiers_release`: releasing `ctrl+shift+a` releases `a`,
      the left shift (the first code of `shift`) and ctrl, in that order. */
  lemma SendCtrlShiftARelease(ctrl: string, shift: string, a: string, leftCtrl: string, leftShift: string)
    requires ctrl == "ctrl" && shift == "shift" && a == "a" && leftCtrl == "left ctrl" && leftShift == "left shift"
    ensures Send(Fresh(), Name(ctrl + "+" + shift + "+" + a), false, true).Ok?
    ensures SameEvents(Send(Fresh(), Name(ctrl + "+" + shift + "+" + a), false, true).value.output,
                       [KeyEvent(Up, 1, Some(a)), KeyEvent(Up, 5, Some(leftShift)), KeyEvent(Up, 7, Some(leftCtrl))])
  {
    ParseCtrlShiftA(ctrl, shift, a);
    SendStep(Fresh(), Name(ctrl + "+" + shift + "+" + a), [[7], [5, 6], [1]], [7, 5, 1], false, true);
    var t := Send(Fresh(), Name(ctrl + "+" + shift + "+" + a), false, true).value;
    ReleaseOfThree(7, 5, 1);
    CtrlShiftAReleaseEvents(t.output, a, leftCtrl, leftShift);
  }

  lemma ReleaseOfThree(c1: int, c2: int, c3: int)
    ensures Synth(Up, Reversed([c1, c2, c3])) == [KeyEvent(Up, c3, None), KeyEvent(Up, c2, None), KeyEvent(Up, c1, None)]
  {
    assert Reversed([c1, c2, c3]) == [c3, c2, c1];
  }

  lemma CtrlShiftAReleaseEvents(out: seq<KeyEvent>, a: string, leftCtrl: string, leftShift: string)
    requires out == [] + [] + [KeyEvent(Up, 1, None), KeyEvent(Up, 5, None), KeyEvent(Up, 7, None)]
    ensures SameEvents(out, [KeyEvent(Up, 1, Some(a)), KeyEvent(Up, 5, Some(leftShift)), KeyEvent(Up, 7, Some(leftCtrl))])
  {
  }

  // ---------------------------------------------------------------------
  // stash_state, restore_state, restore_modifiers.

  /** The restoring events, once the ascending code lists are known. */
  lemma RestoreEventsOf(current: set<int>, target: set<int>, ups: seq<int>, downs: seq<int>)
    requires forall i, j :: 0 <= i < j < |ups| ==> ups[i] < ups[j]
    requires forall i, j :: 0 <= i < j < |downs| ==> downs[i] < downs[j]
    requires forall c :: c in ups <==> c in current && c !in target
    requires forall c :: c in downs <==> c in target && c !in current
    ensures RestoreEvents(current, target) == Synth(Up, ups) + Synth(Down, downs)
  {
    AscendingUnique(Sorted(current - target), ups);
    AscendingUnique(Sorted(target - current), downs);
  }

  /** `restore_state` on a transparent session, once the ascending code
      lists are known. */
  lemma RestoreOnto(s: Session, target: seq<int>, ups: seq<int>, downs: seq<int>)
    requires Transparent(s)
    requires forall i, j :: 0 <= i < j < |ups| ==> ups[i] < ups[j]
    requires forall i, j :: 0 <= i < j < |downs| ==> downs[i] < downs[j]
    requires forall c :: c in ups <==> c in s.pressed && c !in target
    requires forall c :: c in downs <==> c in target && c !in s.pressed
    ensures Transparent(RestoreState(s, target))
    ensures RestoreState(s, target).output == s.output + (Synth(Up, ups) + Synth(Down, downs))
  {
    var t := set c | c in target;
    RestoreEventsOf(s.pressed.Keys, t, ups, downs);
    RestoreReaches(s, target);
  }

  /** The same on a session whose output was just taken. */
  lemma RestoreFrom(s: Session, target: seq<int>, ups: seq<int>, downs: seq<int>)
    requires Transparent(s) && s.output == []
    requires forall i, j :: 0 <= i < j < |ups| ==> ups[i] < ups[j]
    requires forall i, j :: 0 <= i < j < |downs| ==> downs[i] < downs[j]
    requires forall c :: c in ups <==> c in s.pressed && c !in target
    requires forall c :: c in downs <==> c in target && c !in s.pressed
    ensures Transparent(RestoreState(s, target))
    ensures Do(RestoreState(s, target), []).0 == Synth(Up, ups) + Synth(Down, downs)
  {
    RestoreOnto(s, target, ups, downs);
    assert [] + (Synth(Up, ups) + Synth(Down, downs)) == Synth(Up, ups) + Synth(Down, downs);
  }

  /** `stash_state` on a transparent session whose output was just taken. */
  lemma StashFrom(s: Session, codes: seq<int>)
    requires Transparent(s) && s.output == []
    requires forall i, j :: 0 <= i < j < |codes| ==> codes[i] < codes[j]
    requires forall c :: c in codes <==> c in s.pressed
    ensures Stash(s).0 == codes && Transparent(Stash(s).1)
    ensures Do(Stash(s).1, []).0 == Synth(Up, codes)
  {
    AscendingUnique(Stash(s).0, codes);
    InjectTransparent(s, Synth(Up, codes));
  }

  /** The session after the harness pumps one event into a fresh one. */
  lemma DoOne(e1: KeyEvent)
    ensures var s := Do(Fresh(), [e1]).1;
            Transparent(s) && s.output == [] && s.recording.None? && s.pressed == Track(map[], e1)
  {
    DoTransparent(Fresh(), [e1]);
    TrackAllOne(map[], e1);
  }

  lemma DoTwo(e1: KeyEvent, e2: KeyEvent)
    ensures var s := Do(Fresh(), [e1, e2]).1;
            Transparent(s) && s.output == [] && s.recording.None? && s.pressed == Track(Track(map[], e1), e2)
  {
    DoTransparent(Fresh(), [e1, e2]);
    TrackAllTwo(map[], e1, e2);
  }

  /** `test_stash_state`: after `d_a + d_shift` the stash is codes 1 and 5,
      released in that order. */
  lemma StashScenario(a: string, leftShift: string)
    requires a == "a" && leftShift == "left shift"
    ensures var s := Do(Fresh(), [KeyEvent(Down, 1, Some(a)), KeyEvent(Down, 5, Some(leftShift))]).1;
            Stash(s).0 == [1, 5] &&
            SameEvents(Do(Stash(s).1, []).0, [KeyEvent(Up, 1, Some(a)), KeyEvent(Up, 5, Some(leftShift))])
  {
    var e1, e2 := KeyEvent(Down, 1, Some(a)), KeyEvent(Down, 5, Some(leftShift));
    DoTwo(e1, e2);
    var s := Do(Fresh(), [e1, e2]).1;
    assert forall c :: c in s.pressed <==> c == 1 || c == 5;
    StashFrom(s, [1, 5]);
  }

  /** `test_restore_state`: from `b` down, restoring codes 1 and 5 releases
      `b`, then presses `a` and the left shift. */
  lemma RestoreScenario(b: string, a: string, leftShift: string)
    requires b == "b" && a == "a" && leftShift == "left shift"
    ensures var s := Do(Fresh(), [KeyEvent(Down, 2, Some(b))]).1;
            SameEvents(Do(RestoreState(s, [1, 5]), []).0,
                       [KeyEvent(Up, 2, Some(b)), KeyEvent(Down, 1, Some(a)), KeyEvent(Down, 5, Some(leftShift))])
  {
    var e1 := KeyEvent(Down, 2, Some(b));
    DoOne(e1);
    var s := Do(Fresh(), [e1]).1;
    RestoreCodes(s.pressed, e1);
    RestoreFrom(s, [1, 5], [2], [1, 5]);
    RestoredEvents(b, a, leftShift);
  }

  lemma RestoreCodes(p: Pressed, e1: KeyEvent)
    requires e1.kind == Down && e1.code == 2 && p == Track(map[], e1)
    ensures forall c :: c in [2] <==> c in p && c !in [1, 5]
    ensures forall c :: c in [1, 5] <==> c in [1, 5] && c !in p
  {
  }

  lemma RestoredEvents(b: string, a: string, leftShift: string)
    requires b == "b" && a == "a" && leftShift == "left shift"
    ensures SameEvents(Synth(Up, [2]) + Synth(Down, [1, 5]),
                       [KeyEvent(Up, 2, Some(b)), KeyEvent(Down, 1, Some(a)), KeyEvent(Down, 5, Some(leftShift))])
  {
    var r := Synth(Up, [2]) + Synth(Down, [1, 5]);
    assert r[0] == KeyEvent(Up, 2, None) && r[1] == KeyEvent(Down, 1, None) && r[2] == KeyEvent(Down, 5, None);
  }

  lemma ModifiersOfOneFive()
    ensures ModifiersOf([1, 5]) == [5]
  {
    ModifiersOfSingle(5);
    IsModifierCodeExactly(1);
    IsModifierCodeExactly(5);
    assert [1, 5][1..] == [5] && [5][1..] == [];
  }

  /** `test_restore_modifieres`: restoring the modifiers of codes 1 and 5
      releases `b` and presses only the left shift. */
  lemma RestoreModifiersScenario(b: string, leftShift: string)
    requires b == "b" && leftShift == "left shift"
    ensures var s := Do(Fresh(), [KeyEvent(Down, 2, Some(b))]).1;
            SameEvents(Do(RestoreModifiers(s, [1, 5]), []).0,
                       [KeyEvent(Up, 2, Some(b)), KeyEvent(Down, 5, Some(leftShift))])
  {
    var e1 := KeyEvent(Down, 2, Some(b));
    DoOne(e1);
    var s := Do(Fresh(), [e1]).1;
    ModifiersOfOneFive();
    assert RestoreModifiers(s, [1, 5]) == RestoreState(s, [5]);
    RestoreBToShift(s);
    BThenShiftEvents(Do(RestoreState(s, [5]), []).0, b, leftShift);
  }

  lemma BThenShiftEvents(out: seq<KeyEvent>, b: string, leftShift: string)
    requires out == [KeyEvent(Up, 2, None), KeyEvent(Down, 5, None)]
    ensures SameEvents(out, [KeyEvent(Up, 2, Some(b)), KeyEvent(Down, 5, Some(leftShift))])
  {
  }

  lemma RestoreBToShift(s: Session)
    requires Transparent(s) && s.output == [] && forall c :: c in s.pressed <==> c == 2
    ensures Do(RestoreState(s, [5]), []).0 == [KeyEvent(Up, 2, None), KeyEvent(Down, 5, None)]
  {
    RestoreFrom(s, [5], [2], [5]);
  }

  // ---------------------------------------------------------------------
  // write.

  /** Nothing is pressed at first, so stashing a fresh session does nothing. */
  lemma StashFresh()
    ensures Stash(Fresh()) == ([], Fresh())
  {
    assert |Stash(Fresh()).0| == 0;
  }

  /** With nothing pressed, restoring no modifiers does nothing. */
  lemma RestoreNothing(s: Session)
    requires forall c :: c !in s.pressed
    ensures RestoreModifiers(s, []) == s
  {
    assert ModifiersOf([]) == [];
    RestoreEventsNone(s.pressed.Keys, set c | c in []);
  }

  /** One plain letter, not exact: its code pressed and released. */
  lemma WritePlain(s: Session, c: char, code: int)
    requires Transparent(s) && LetterEntries(c) == Some([(code, [])])
    ensures WriteChar(s, c, false).Ok?
    ensures var t := WriteChar(s, c, false).value;
            Transparent(t) && t.output == s.output + [KeyEvent(Down, code, None), KeyEvent(Up, code, None)] &&
            forall x :: x in t.pressed <==> x in s.pressed && x != code
  {
    var ev := [KeyEvent(Down, code, None), KeyEvent(Up, code, None)];
    InjectTransparent(s, ev);
    TrackAllTwo(s.pressed, ev[0], ev[1]);
  }

  /** Pressing or releasing a one-key hotkey on a transparent session sends
      the key's first code. */
  lemma SendCode(s: Session, key: Key, codes: seq<int>, down: bool)
    requires Transparent(s) && ParseHotkey(key) == Ok([[codes]]) && codes != []
    ensures Send(s, key, down, !down).Ok?
    ensures var t := Send(s, key, down, !down).value;
            var e := KeyEvent(if down then Down else Up, codes[0], None);
            Transparent(t) && t.output == s.output + [e] &&
            forall x :: x in t.pressed <==> if x == codes[0] then down else x in s.pressed
  {
    var code := codes[0];
    var e := KeyEvent(if down then Down else Up, code, None);
    OneCodeEvents(code, down);
    SendOfStep(s, key, [codes], [code], down, !down);
    var t := Inject(s, [e]);
    assert Send(s, key, down, !down) == Ok(t);
    InjectTransparent(s, [e]);
    TrackAllOne(s.pressed, e);
    forall x ensures x in t.pressed <==> if x == code then down else x in s.pressed {
    }
  }

  /** A step of one code, pressed or released: one event. */
  lemma OneCodeEvents(code: int, down: bool)
    ensures SendEvents([[code]], down, !down) == [KeyEvent(if down then Down else Up, code, None)]
  {
    SendOneStep([code], down, !down);
    assert Reversed([code]) == [code];
    if down {
      assert Synth(Down, [code]) + [] == [KeyEvent(Down, code, None)];
    } else {
      assert [] + Synth(Up, [code]) == [KeyEvent(Up, code, None)];
    }
  }

  /** Pressing or releasing `shift` as `write` does around a letter. */
  lemma SendEachShift(s: Session, shift: string, down: bool)
    requires Transparent(s) && shift == "shift"
    ensures SendEach(s, [shift], down).Ok?
    ensures var t := SendEach(s, [shift], down).value;
            Transparent(t) && t.output == s.output + [KeyEvent(if down then Down else Up, 5, None)] &&
            forall x :: x in t.pressed <==> if x == 5 then down else x in s.pressed
  {
    ParseShift(shift);
    SendCode(s, Name(shift), [5, 6], down);
    assert [shift][1..] == [];
    assert SendEach(s, [shift], down) == Send(s, Name(shift), down, !down);
  }

  /** A letter's code pressed and released on a transparent session. */
  lemma TapCode(s: Session, code: int)
    ensures var ev := [KeyEvent(Down, code, None), KeyEvent(Up, code, None)];
            Transparent(s) ==>
            Transparent(Inject(s, ev)) && Inject(s, ev).output == s.output + ev &&
            forall x :: x in Inject(s, ev).pressed <==> x in s.pressed && x != code
  {
    var ev := [KeyEvent(Down, code, None), KeyEvent(Up, code, None)];
    if Transparent(s) {
      InjectTransparent(s, ev);
      TrackAllTwo(s.pressed, ev[0], ev[1]);
    }
  }

  /** Shift pressed, a code tapped, shift released: the three steps'
      effects put together. */
  lemma ShiftTap(s: Session, s1: Session, s2: Session, t: Session, code: int)
    requires code != 5
    requires s1.output == s.output + [KeyEvent(Down, 5, None)]
    requires forall x :: x in s1.pressed <==> if x == 5 then true else x in s.pressed
    requires s2.output == s1.output + [KeyEvent(Down, code, None), KeyEvent(Up, code, None)]
    requires forall x :: x in s2.pressed <==> x in s1.pressed && x != code
    requires t.output == s2.output + [KeyEvent(Up, 5, None)]
    requires forall x :: x in t.pressed <==> if x == 5 then false else x in s2.pressed
    ensures t.output == s.output + [KeyEvent(Down, 5, None), KeyEvent(Down, code, None),
                                    KeyEvent(Up, code, None), KeyEvent(Up, 5, None)]
    ensures forall x :: x in t.pressed <==> x in s.pressed && x != code && x != 5
  {
    forall x ensures x in t.pressed <==> x in s.pressed && x != code && x != 5 {
      assert x in t.pressed <==> x != 5 && x in s2.pressed;
      assert x in s2.pressed <==> x in s1.pressed && x != code;
      assert x in s1.pressed <==> x == 5 || x in s.pressed;
    }
  }

  /** One shifted letter, not exact: shift pressed around its code. */
  lemma WriteShifted(s: Session, c: char, code: int, shift: string)
    requires Transparent(s) && shift == "shift" && code != 5
    requires LetterEntries(c).Some? && LetterEntries(c).value != [] && LetterEntries(c).value[0] == (code, [shift])
    ensures WriteChar(s, c, false).Ok?
    ensures var t := WriteChar(s, c, false).value;
            Transparent(t) &&
            t.output == s.output + [KeyEvent(Down, 5, None), KeyEvent(Down, code, None),
                                    KeyEvent(Up, code, None), KeyEvent(Up, 5, None)] &&
            forall x :: x in t.pressed <==> x in s.pressed && x != code && x != 5
  {
    SendEachShift(s, shift, true);
    var s1 := SendEach(s, [shift], true).value;
    var ev := [KeyEvent(Down, code, None), KeyEvent(Up, code, None)];
    TapCode(s1, code);
    var s2 := Inject(s1, ev);
    SendEachShift(s2, shift, false);
    var t := SendEach(s2, [shift], false).value;
    ShiftTap(s, s1, s2, t, code);
    WriteCharEntry(s, c, code, [shift]);
  }

  /** A known character, not exact, is its first entry's code typed with
      the entry's modifiers pressed around it. */
  lemma WriteCharEntry(s: Session, c: char, code: int, modifiers: seq<string>)
    requires LetterEntries(c).Some? && LetterEntries(c).value != [] && LetterEntries(c).value[0] == (code, modifiers)
    requires SendEach(s, modifiers, true).Ok?
    ensures WriteChar(s, c, false) ==
            SendEach(Inject(SendEach(s, modifiers, true).value, [KeyEvent(Down, code, None), KeyEvent(Up, code, None)]), modifiers, false)
  {
  }

  lemma LettersOfTable(a: char, b: char, upper: char)
    requires a == 'a' && b == 'b' && upper == 'A'
    ensures LetterEntries(a) == Some([(1, [])]) && LetterEntries(b) == Some([(2, [])])
    ensures LetterEntries(upper) == Some([(1, ["shift"]), (-1, [])])
  {
    OneCharNormal([a]);
    OneCharNormal([b]);
    OneCharNormal([upper]);
  }

  lemma WriteCharsTwo(s: Session, text: string, exact: bool, t1: Session, t2: Session)
    requires |text| == 2
    requires WriteChar(s, text[0], exact) == Ok(t1) && WriteChar(t1, text[1], exact) == Ok(t2)
    ensures WriteChars(s, text, exact) == Ok(t2)
  {
    var rest := text[1..];
    assert rest[0] == text[1] && rest[1..] == [];
    assert WriteChars(t1, rest, exact) == Ok(t2);
  }

  /** `write` of two characters on a fresh session, once each character's
      effect is known and nothing is left down. */
  lemma WriteFreshTwo(text: string, exact: bool, t1: Session, t2: Session)
    requires |text| == 2
    requires WriteChar(Fresh(), text[0], exact) == Ok(t1) && WriteChar(t1, text[1], exact) == Ok(t2)
    requires forall c :: c !in t2.pressed
    ensures Write(Fresh(), text, exact, true) == Ok(t2)
  {
    StashFresh();
    WriteCharsTwo(Fresh(), text, exact, t1, t2);
    RestoreNothing(t2);
  }

  /** `test_write_simple`. */
  lemma WriteSimple(text: string)
    requires text == "a"
    ensures Write(Fresh(), text, false, true).Ok?
    ensures SameEvents(Write(Fresh(), text, false, true).value.output,
                       [KeyEvent(Down, 1, Some("a")), KeyEvent(Up, 1, Some("a"))])
  {
    StashFresh();
    LettersOfTable('a', 'b', 'A');
    WritePlain(Fresh(), 'a', 1);
    var t := WriteChar(Fresh(), 'a', false).value;
    assert text[1..] == [];
    RestoreNothing(t);
  }

  /** `test_write_multiple`: one letter after the other. */
  lemma WriteMultiple(text: string)
    requires text == "ab"
    ensures Write(Fresh(), text, false, true).Ok?
    ensures SameEvents(Write(Fresh(), text, false, true).value.output,
                       [KeyEvent(Down, 1, Some("a")), KeyEvent(Up, 1, Some("a")),
                        KeyEvent(Down, 2, Some("b")), KeyEvent(Up, 2, Some("b"))])
  {
    LettersOfTable('a', 'b', 'A');
    var s0 := Fresh();
    WritePlain(s0, 'a', 1);
    var t1 := WriteChar(s0, 'a', false).value;
    assert forall x :: x !in t1.pressed;
    WritePlain(t1, 'b', 2);
    var t2 := WriteChar(t1, 'b', false).value;
    assert forall x :: x !in t2.pressed;
    WriteFreshTwo(text, false, t1, t2);
    PlainPairEvents(t2.output, "a", "b");
  }

  /** The events `write("ab")` emits, against the test's expectation. */
  lemma PlainPairEvents(out: seq<KeyEvent>, a: string, b: string)
    requires out == [] + [KeyEvent(Down, 1, None), KeyEvent(Up, 1, None)] + [KeyEvent(Down, 2, None), KeyEvent(Up, 2, None)]
    ensures SameEvents(out, [KeyEvent(Down, 1, Some(a)), KeyEvent(Up, 1, Some(a)),
                             KeyEvent(Down, 2, Some(b)), KeyEvent(Up, 2, Some(b))])
  {
  }

  /** The events `write("Ab")` emits, against the test's expectation. */
  lemma ShiftedThenPlainEvents(out: seq<KeyEvent>)
    requires out == [KeyEvent(Down, 5, None), KeyEvent(Down, 1, None), KeyEvent(Up, 1, None), KeyEvent(Up, 5, None)] +
                    [KeyEvent(Down, 2, None), KeyEvent(Up, 2, None)]
    ensures SameEvents(out, [KeyEvent(Down, 5, Some("left shift")), KeyEvent(Down, 1, Some("a")),
                             KeyEvent(Up, 1, Some("a")), KeyEvent(Up, 5, Some("left shift")),
                             KeyEvent(Down, 2, Some("b")), KeyEvent(Up, 2, Some("b"))])
  {
  }

  /** `test_write_modifiers`: an upper-case letter is typed with shift held. */
  lemma WriteModifiers(text: string)
    requires text == "Ab"
    ensures Write(Fresh(), text, false, true).Ok?
    ensures SameEvents(Write(Fresh(), text, false, true).value.output,
                       [KeyEvent(Down, 5, Some("left shift")), KeyEvent(Down, 1, Some("a")),
                        KeyEvent(Up, 1, Some("a")), KeyEvent(Up, 5, Some("left shift")),
                        KeyEvent(Down, 2, Some("b")), KeyEvent(Up, 2, Some("b"))])
  {
    LettersOfTable('a', 'b', 'A');
    var s := Fresh();
    ShiftedThenPlain(s, 'A', 1, 'b', 2);
    var t1 := WriteChar(s, 'A', false).value;
    var t2 := WriteChar(t1, 'b', false).value;
    WriteFreshTwo(text, false, t1, t2);
    ShiftedThenPlainEvents(t2.output);
  }

  /** A shifted letter, then a plain one, typed from a session with
      nothing down: both keys and shift are up again at the end. */
  lemma ShiftedThenPlain(s: Session, c1: char, code1: int, c2: char, code2: int)
    requires Transparent(s) && s.output == [] && forall x :: x !in s.pressed
    requires code1 != 5 && LetterEntries(c1) == Some([(code1, ["shift"]), (-1, [])])
    requires LetterEntries(c2) == Some([(code2, [])])
    ensures WriteChar(s, c1, false).Ok? && WriteChar(WriteChar(s, c1, false).value, c2, false).Ok?
    ensures var t := WriteChar(WriteChar(s, c1, false).value, c2, false).value;
            (forall x :: x !in t.pressed) &&
            t.output == [KeyEvent(Down, 5, None), KeyEvent(Down, code1, None), KeyEvent(Up, code1, None), KeyEvent(Up, 5, None)] +
                        [KeyEvent(Down, code2, None), KeyEvent(Up, code2, None)]
  {
    WriteShifted(s, c1, code1, "shift");
    var t1 := WriteChar(s, c1, false).value;
    assert t1.output == [KeyEvent(Down, 5, None), KeyEvent(Down, code1, None), KeyEvent(Up, code1, None), KeyEvent(Up, 5, None)];
    assert forall x :: x !in t1.pressed || x == code1 || x == 5;
    WritePlain(t1, c2, code2);
    var t := WriteChar(t1, c2, false).value;
    assert forall x :: x in t.pressed ==> x in t1.pressed && x != code2;
    assert forall x :: x !in t1.pressed ==> x !in t.pressed;
  }

  /** A single modifier code is kept by `ModifiersOf`. */
  lemma ModifiersOfSingle(c: int)
    requires 4 <= c <= 7
    ensures ModifiersOf([c]) == [c]
  {
    IsModifierCodeExactly(c);
    assert [c][1..] == [];
  }

  /** `test_write_stash_restore`: a held shift is released before the text
      and pressed again after it. */
  lemma WriteStashRestore(text: string, leftShift: string, a: string)
    requires text == "a" && leftShift == "left shift" && a == "a"
    ensures var s := Do(Fresh(), [KeyEvent(Down, 5, Some(leftShift))]).1;
            Write(s, text, false, true).Ok? &&
            SameEvents(Do(Write(s, text, false, true).value, []).0,
                       [KeyEvent(Up, 5, Some(leftShift)), KeyEvent(Down, 1, Some(a)),
                        KeyEvent(Up, 1, Some(a)), KeyEvent(Down, 5, Some(leftShift))])
  {
    var e1 := KeyEvent(Down, 5, Some(leftShift));
    DoOne(e1);
    var s := Do(Fresh(), [e1]).1;
    assert forall c :: c in s.pressed <==> c == 5;
    StashAround(s, 5);
    var s1 := Stash(s).1;
    LettersOfTable('a', 'b', 'A');
    WritePlain(s1, 'a', 1);
    var s2 := WriteChar(s1, 'a', false).value;
    assert text[1..] == [];
    assert WriteChars(s1, text, false) == Ok(s2);
    RestoreAround(s2, 5);
    AroundEvents(Do(Write(s, text, false, true).value, []).0, 5, leftShift, 1, a);
  }

  /** With one code held, `stash_state` releases it and leaves nothing down. */
  lemma StashAround(s: Session, held: int)
    requires Transparent(s) && s.output == [] && forall c :: c in s.pressed <==> c == held
    ensures Stash(s).0 == [held] && Transparent(Stash(s).1)
    ensures Stash(s).1.output == [KeyEvent(Up, held, None)]
    ensures forall c :: c !in Stash(s).1.pressed
  {
    StashFrom(s, [held]);
    StashReleasesAll(s);
  }

  /** With nothing down, restoring one modifier presses it. */
  lemma RestoreAround(s: Session, held: int)
    requires Transparent(s) && 4 <= held <= 7 && forall c :: c !in s.pressed
    ensures RestoreModifiers(s, [held]).output == s.output + [KeyEvent(Down, held, None)]
  {
    ModifiersOfSingle(held);
    RestoreOnto(s, [held], [], [held]);
    assert Synth(Up, []) + Synth(Down, [held]) == [KeyEvent(Down, held, None)];
  }

  /** A key pressed and released with another released before and pressed
      after, against the test's expectation. */
  lemma AroundEvents(out: seq<KeyEvent>, held: int, heldName: string, code: int, name: string)
    requires out == [KeyEvent(Up, held, None)] + [KeyEvent(Down, code, None), KeyEvent(Up, code, None)] +
                    [KeyEvent(Down, held, None)]
    ensures SameEvents(out, [KeyEvent(Up, held, Some(heldName)), KeyEvent(Down, code, Some(name)),
                             KeyEvent(Up, code, Some(name)), KeyEvent(Down, held, Some(heldName))])
  {
  }

  /** `test_write_unicode_explicit`: exactly, every letter is typed as
      unicode. */
  lemma WriteUnicodeExplicit(text: string)
    requires text == "ab"
    ensures Write(Fresh(), text, true, true).Ok?
    ensures Write(Fresh(), text, true, true).value.output ==
            [KeyEvent(Down, 999, Some("a")), KeyEvent(Down, 999, Some("b"))]
  {
    var t1 := TypeUnicode(Fresh(), 'a');
    var t2 := TypeUnicode(t1, 'b');
    assert WriteChar(Fresh(), text[0], true) == Ok(t1);
    assert WriteChar(t1, text[1], true) == Ok(t2);
    assert forall c :: c !in t2.pressed by {
      assert forall c :: c !in Fresh().pressed;
    }
    WriteFreshTwo(text, true, t1, t2);
  }

  /** A character the table does not know is typed as unicode. */
  lemma AccentedUnknown(c: char)
    requires c == '\U{00E1}'
    ensures LetterEntries(c) == None
  {
    OneCharNormal([c]);
  }

  /** `test_write_unicode_fallback`: the accented letter falls back to
      unicode, the plain one is typed with its key. */
  lemma WriteUnicodeFallback(text: string, b: string)
    requires text == "\U{00E1}b" && b == "b"
    ensures Write(Fresh(), text, false, true).Ok?
    ensures SameEvents(Write(Fresh(), text, false, true).value.output,
                       [KeyEvent(Down, 999, Some("\U{00E1}")), KeyEvent(Down, 2, Some(b)), KeyEvent(Up, 2, Some(b))])
  {
    AccentedUnknown(text[0]);
    LettersOfTable('a', 'b', 'A');
    UnicodeFallback(Fresh(), text[0]);
    var t1 := TypeUnicode(Fresh(), text[0]);
    WritePlain(t1, 'b', 2);
    var t2 := WriteChar(t1, 'b', false).value;
    assert forall c :: c !in t2.pressed by {
      assert forall c :: c !in Fresh().pressed;
    }
    WriteFreshTwo(text, false, t1, t2);
    FallbackEvents(t2.output, text[0], b);
  }

  /** A character without table entries is typed as unicode. */
  lemma UnicodeFallback(s: Session, c: char)
    requires Transparent(s) && LetterEntries(c) == None
    ensures WriteChar(s, c, false) == Ok(TypeUnicode(s, c)) && Transparent(TypeUnicode(s, c))
  {
  }

  lemma FallbackEvents(out: seq<KeyEvent>, c: char, b: string)
    requires out == [] + [KeyEvent(Down, 999, Some([c]))] + [KeyEvent(Down, 2, None), KeyEvent(Up, 2, None)]
    ensures SameEvents(out, [KeyEvent(Down, 999, Some([c])), KeyEvent(Down, 2, Some(b)), KeyEvent(Up, 2, Some(b))])
  {
  }

  // ---------------------------------------------------------------------
  // Recording.

  /** `test_start_stop_recording`: the recording is the events pumped. */
  lemma RecordScenario(a: string)
    requires a == "a"
    ensures var s := Do(StartRecording(Fresh()).value, [KeyEvent(Down, 1, Some(a)), KeyEvent(Up, 1, Some(a))]).1;
            StopRecording(s).Ok? &&
            StopRecording(s).value.0 == [KeyEvent(Down, 1, Some(a)), KeyEvent(Up, 1, Some(a))]
  {
    RecordThenStop(Fresh(), [KeyEvent(Down, 1, Some(a)), KeyEvent(Up, 1, Some(a))]);
  }

  /** A recording started before `unhook_all` captures nothing afterwards:
      a second recording still cannot start, and stopping the first returns
      no events. */
  lemma RecordAcrossUnhookAll(a: string)
    requires a == "a"
    ensures var s := Do(Client.UnhookAll(StartRecording(Fresh()).value), [KeyEvent(Down, 1, Some(a)), KeyEvent(Up, 1, Some(a))]).1;
            StartRecording(s) == Err(AlreadyRecording) &&
            StopRecording(s).Ok? && StopRecording(s).value.0 == []
  {
    UnhookAllStopsRecording(StartRecording(Fresh()).value, [KeyEvent(Down, 1, Some(a)), KeyEvent(Up, 1, Some(a))]);
  }

  /** `test_stop_recording_error`: nothing is being recorded at first. */
  lemma StopRecordingFresh()
    ensures StopRecording(Fresh()) == Err(NotRecording)
  {
  }

  // ---------------------------------------------------------------------
  // play.

  /** Replaying a press and release of one code sends exactly that. */
  lemma PlayPressRelease(s: Session, code: int, name: string)
    requires Transparent(s) && code != 0
    ensures PlayEvents(s, [KeyEvent(Down, code, Some(name)), KeyEvent(Up, code, Some(name))]).Ok?
    ensures var t := PlayEvents(s, [KeyEvent(Down, code, Some(name)), KeyEvent(Up, code, Some(name))]).value;
            Transparent(t) && t.output == s.output + [KeyEvent(Down, code, None), KeyEvent(Up, code, None)] &&
            forall x :: x in t.pressed <==> x in s.pressed && x != code
  {
    var events := [KeyEvent(Down, code, Some(name)), KeyEvent(Up, code, Some(name))];
    assert PlayKey(events[0]) == Code(code) && PlayKey(events[1]) == Code(code);
    SendCode(s, Code(code), [code], true);
    var s1 := Send(s, Code(code), true, false).value;
    SendCode(s1, Code(code), [code], false);
    var s2 := Send(s1, Code(code), false, true).value;
    PlayTwo(s, events, s1, s2);
    forall x ensures x in s2.pressed <==> x in s.pressed && x != code {
      assert x in s2.pressed <==> x != code && x in s1.pressed;
      assert x in s1.pressed <==> x == code || x in s.pressed;
    }
    assert s2.output == (s.output + [KeyEvent(Down, code, None)]) + [KeyEvent(Up, code, None)];
  }

  /** Replaying two events is sending the one and then the other. */
  lemma PlayTwo(s: Session, events: seq<KeyEvent>, s1: Session, s2: Session)
    requires |events| == 2
    requires Send(s, PlayKey(events[0]), events[0].kind == Down, events[0].kind == Up) == Ok(s1)
    requires Send(s1, PlayKey(events[1]), events[1].kind == Down, events[1].kind == Up) == Ok(s2)
    ensures PlayEvents(s, events) == Ok(s2)
  {
    var rest := events[1..];
    assert rest[0] == events[1] && rest[1..] == [];
    assert PlayEvents(s1, rest) == Ok(s2);
  }

  /** `test_play_nodelay`. */
  lemma PlayNoDelay(a: string)
    requires a == "a"
    ensures Play(Fresh(), [KeyEvent(Down, 1, Some(a)), KeyEvent(Up, 1, Some(a))]).Ok?
    ensures SameEvents(Play(Fresh(), [KeyEvent(Down, 1, Some(a)), KeyEvent(Up, 1, Some(a))]).value.output,
                       [KeyEvent(Down, 1, Some(a)), KeyEvent(Up, 1, Some(a))])
  {
    var s0 := Fresh();
    var events := [KeyEvent(Down, 1, Some(a)), KeyEvent(Up, 1, Some(a))];
    StashFresh();
    PlayPressRelease(s0, 1, a);
    var t := PlayEvents(s0, events).value;
    assert forall c :: c !in t.pressed;
    RestoreNothing(t);
    assert Play(s0, events) == Ok(t);
    PlayedEvents(t.output, a);
  }

  lemma PlayedEvents(out: seq<KeyEvent>, a: string)
    requires out == [] + [KeyEvent(Down, 1, None), KeyEvent(Up, 1, None)]
    ensures SameEvents(out, [KeyEvent(Down, 1, Some(a)), KeyEvent(Up, 1, Some(a))])
  {
  }

  /** `test_play_stash`: a held ctrl is released around the replay. */
  lemma PlayStash(a: string, leftCtrl: string)
    requires a == "a" && leftCtrl == "left ctrl"
    ensures var s := Do(Fresh(), [KeyEvent(Down, 7, Some(leftCtrl))]).1;
            Play(s, [KeyEvent(Down, 1, Some(a)), KeyEvent(Up, 1, Some(a))]).Ok? &&
            SameEvents(Do(Play(s, [KeyEvent(Down, 1, Some(a)), KeyEvent(Up, 1, Some(a))]).value, []).0,
                       [KeyEvent(Up, 7, Some(leftCtrl)), KeyEvent(Down, 1, Some(a)),
                        KeyEvent(Up, 1, Some(a)), KeyEvent(Down, 7, Some(leftCtrl))])
  {
    var e1 := KeyEvent(Down, 7, Some(leftCtrl));
    var events := [KeyEvent(Down, 1, Some(a)), KeyEvent(Up, 1, Some(a))];
    DoOne(e1);
    var s := Do(Fresh(), [e1]).1;
    assert forall c :: c in s.pressed <==> c == 7;
    StashAround(s, 7);
    var s1 := Stash(s).1;
    PlayPressRelease(s1, 1, a);
    var s2 := PlayEvents(s1, events).value;
    RestoreAround(s2, 7);
    AroundEvents(Do(Play(s, events).value, []).0, 7, leftCtrl, 1, a);
  }

  // ---------------------------------------------------------------------
  // get_hotkey_name() on the pressed keys.

  /** The pressed state after `du_c + d_ctrl + d_a + d_b`. */
  lemma PressedAfterCtrlAB(p: Pressed, e3: KeyEvent, e1: KeyEvent, e2: KeyEvent)
    requires e3.kind == Down && e3.code == 7 && e1.kind == Down && e1.code == 1 && e2.kind == Down && e2.code == 2
    requires p == TrackAll(map[], [KeyEvent(Down, 3, e3.name), KeyEvent(Up, 3, e3.name)] + [e3, e1, e2])
    ensures forall c :: c in p <==> c == 1 || c == 2 || c == 7
    ensures 1 in p && 2 in p && 7 in p && p[1] == e1 && p[2] == e2 && p[7] == e3
  {
    var du := [KeyEvent(Down, 3, e3.name), KeyEvent(Up, 3, e3.name)];
    TrackAllConcat(map[], du, [e3, e1, e2]);
    TrackAllTwo(map[], du[0], du[1]);
    var q := Track(Track(map[], du[0]), du[1]);
    assert forall c :: c !in q;
    TrackAllThree(q, e3, e1, e2);
  }

  /** `test_get_hotkey_name_from_pressed`: the pressed names, in scan-code
      order, are `a`, `b`, `left ctrl`, which name `ctrl+a+b`. */
  lemma HotkeyNameFromPressed(c: string, leftCtrl: string, a: string, b: string)
    requires c == "c" && leftCtrl == "left ctrl" && a == "a" && b == "b"
    ensures var s := Do(Fresh(), [KeyEvent(Down, 3, Some(c)), KeyEvent(Up, 3, Some(c))] +
                                 [KeyEvent(Down, 7, Some(leftCtrl)), KeyEvent(Down, 1, Some(a)), KeyEvent(Down, 2, Some(b))]).1;
            HotkeyNameOfPressed(s) == Ok("ctrl+a+b")
  {
    var e3, e1, e2 := KeyEvent(Down, 7, Some(leftCtrl)), KeyEvent(Down, 1, Some(a)), KeyEvent(Down, 2, Some(b));
    var events := [KeyEvent(Down, 3, Some(c)), KeyEvent(Up, 3, Some(c))] + [e3, e1, e2];
    DoTransparent(Fresh(), events);
    var s := Do(Fresh(), events).1;
    PressedAfterCtrlAB(s.pressed, e3, e1, e2);
    NameOfCtrlAB(s, a, b, leftCtrl);
  }

  lemma NameOfCtrlAB(s: Session, a: string, b: string, leftCtrl: string)
    requires a == "a" && b == "b" && leftCtrl == "left ctrl"
    requires forall c :: c in s.pressed <==> c == 1 || c == 2 || c == 7
    requires 1 in s.pressed && 2 in s.pressed && 7 in s.pressed
    requires s.pressed[1].name == Some(a) && s.pressed[2].name == Some(b) && s.pressed[7].name == Some(leftCtrl)
    ensures HotkeyNameOfPressed(s) == Ok("ctrl+a+b")
  {
    PressedNamesOf(s, a, b, leftCtrl);
    HotkeyNamePressed(a, b, leftCtrl);
    JoinCtrlAB(a, b);
    HotkeyNameOfNames(s, [a, b, leftCtrl], "ctrl+a+b");
  }

  lemma JoinCtrlAB(a: string, b: string)
    requires a == "a" && b == "b"
    ensures "ctrl" + "+" + a + "+" + b == "ctrl+a+b"
  {
  }

  lemma HotkeyNameOfNames(s: Session, names: seq<string>, name: string)
    requires PressedNames(s) == Some(names) && GetHotkeyName(names) == Ok(name)
    ensures HotkeyNameOfPressed(s) == Ok(name)
  {
  }

  lemma PressedNamesOf(s: Session, a: string, b: string, leftCtrl: string)
    requires forall c :: c in s.pressed <==> c == 1 || c == 2 || c == 7
    requires 1 in s.pressed && 2 in s.pressed && 7 in s.pressed
    requires s.pressed[1].name == Some(a) && s.pressed[2].name == Some(b) && s.pressed[7].name == Some(leftCtrl)
    ensures PressedNames(s) == Some([a, b, leftCtrl])
  {
    SortedKeys(s.pressed, [1, 2, 7]);
    ThreeNamed(s);
    ThreeNames(s, a, b, leftCtrl);
    PressedNamesIn(s, [1, 2, 7], [a, b, leftCtrl]);
  }

  lemma ThreeNamed(s: Session)
    requires forall c :: c in s.pressed <==> c == 1 || c == 2 || c == 7
    requires 1 in s.pressed && 2 in s.pressed && 7 in s.pressed
    requires s.pressed[1].name.Some? && s.pressed[2].name.Some? && s.pressed[7].name.Some?
    ensures PressedNames(s).Some?
  {
  }

  lemma ThreeNames(s: Session, a: string, b: string, leftCtrl: string)
    requires 1 in s.pressed && 2 in s.pressed && 7 in s.pressed
    requires s.pressed[1].name == Some(a) && s.pressed[2].name == Some(b) && s.pressed[7].name == Some(leftCtrl)
    ensures forall i :: 0 <= i < 3 ==> [1, 2, 7][i] in s.pressed && s.pressed[[1, 2, 7][i]].name == Some([a, b, leftCtrl][i])
  {
  }

  /** The pressed names, once the ascending codes are known. */
  lemma PressedNamesIn(s: Session, codes: seq<int>, names: seq<string>)
    requires Sorted(s.pressed.Keys) == codes && PressedNames(s).Some?
    requires |names| == |codes| && forall i :: 0 <= i < |codes| ==> codes[i] in s.pressed && s.pressed[codes[i]].name == Some(names[i])
    ensures PressedNames(s) == Some(names)
  {
    PressedNamesLength(s, codes);
    forall i | 0 <= i < |names| ensures PressedNames(s).value[i] == names[i] {
      PressedNameAt(s, codes, i);
    }
    NamesEqual(PressedNames(s).value, names);
  }

  lemma NamesEqual(r: seq<string>, names: seq<string>)
    requires |r| == |names| && forall i :: 0 <= i < |names| ==> r[i] == names[i]
    ensures r == names
  {
  }

  lemma PressedNamesLength(s: Session, codes: seq<int>)
    requires Sorted(s.pressed.Keys) == codes && PressedNames(s).Some?
    ensures |PressedNames(s).value| == |codes|
  {
  }

  lemma PressedNameAt(s: Session, codes: seq<int>, i: nat)
    requires Sorted(s.pressed.Keys) == codes && PressedNames(s).Some? && i < |codes|
    ensures i < |PressedNames(s).value| && PressedNames(s).value[i] == s.pressed[codes[i]].name.value
  {
  }

  /** The ascending scan codes of a pressed state. */
  lemma SortedKeys(p: Pressed, codes: seq<int>)
    requires forall i, j :: 0 <= i < j < |codes| ==> codes[i] < codes[j]
    requires forall c :: c in p <==> c in codes
    ensures Sorted(p.Keys) == codes
  {
    AscendingUnique(Sorted(p.Keys), codes);
  }
}
