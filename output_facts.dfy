/** What `send`, `write` and `play` emit on a session without rules or
    suppressing hooks. Each is stated against a reference list of events
    built from the key, the text or the recorded events alone, with no
    session in it. */
module OutputFacts {
  import opened Events
  import opened Keys
  import opened Listener
  import opened Client
  import opened DispatchFacts
  import opened ClientFacts

  // ---------------------------------------------------------------------
  // Reference event lists.

  /** The events `send(key, do_press, do_release)` emits, or why it fails. */
  function KeyEvents(key: Key, doPress: bool, doRelease: bool): (r: Result<seq<KeyEvent>>)
    ensures r.Ok? ==> (doPress && !doRelease ==> AllOfKind(r.value, Down)) && (!doPress && doRelease ==> AllOfKind(r.value, Up))
  {
    match ParseHotkey(key)
    case Err(e) => Err(e)
    case Ok(steps) =>
      match Chosen(steps)
      case Err(e) => Err(e)
      case Ok(chosen) =>
        SendEventsKinds(chosen, doPress, doRelease);
        Ok(SendEvents(chosen, doPress, doRelease))
  }

  /** `first` followed by the events of `rest`, or the failure of `rest`. */
  function Prepend(first: seq<KeyEvent>, rest: Result<seq<KeyEvent>>): (r: Result<seq<KeyEvent>>)
    ensures r.Ok? <==> rest.Ok?
    ensures r.Ok? ==> |r.value| == |first| + |rest.value| && r.value[..|first|] == first && r.value[|first|..] == rest.value
    ensures r.Err? ==> r.error == rest.error
  {
    match rest
    case Err(e) => Err(e)
    case Ok(events) => Ok(first + events)
  }

  /** The events of pressing (or releasing) each name in turn, or the first
      failure. */
  function NamesEvents(names: seq<string>, down: bool): (r: Result<seq<KeyEvent>>)
    ensures names == [] ==> r == Ok([])
    ensures r.Ok? ==> AllOfKind(r.value, if down then Down else Up)
    decreases |names|
  {
    if names == [] then Ok([])
    else
      match KeyEvents(Name(names[0]), down, !down)
      case Err(e) => Err(e)
      case Ok(first) => Prepend(first, NamesEvents(names[1..], down))
  }

  /** The events `write` emits for one character: exactly, a newline or a
      backspace is pressed and released as a key and anything else is one
      unicode Down; otherwise a character of the table is its first entry's
      code pressed and released inside that entry's modifiers, and an
      unknown one is one unicode Down. */
  function CharEvents(c: char, exact: bool): (r: Result<seq<KeyEvent>>)
  {
    if exact then
      if c == '\n' || c == '\U{0008}' then KeyEvents(Name([c]), true, true)
      else Ok([KeyEvent(Down, 999, Some([c]))])
    else
      match LetterEntries(c)
      case None => Ok([KeyEvent(Down, 999, Some([c]))])
      case Some(entries) =>
        if entries == [] then Err(NoScanCode)
        else
          var (code, modifiers) := entries[0];
          match NamesEvents(modifiers, true)
          case Err(e) => Err(e)
          case Ok(downs) =>
            match NamesEvents(modifiers, false)
            case Err(e) => Err(e)
            case Ok(ups) => Ok(downs + [KeyEvent(Down, code, None), KeyEvent(Up, code, None)] + ups)
  }

  /** The events of a whole text, character after character, or the first
      failure. */
  function TextEvents(text: string, exact: bool): (r: Result<seq<KeyEvent>>)
    ensures text == [] ==> r == Ok([])
    decreases |text|
  {
    if text == [] then Ok([])
    else
      match CharEvents(text[0], exact)
      case Err(e) => Err(e)
      case Ok(first) => Prepend(first, TextEvents(text[1..], exact))
  }

  /** The events `play` sends for recorded events: each one's key pressed
      or released, or the first failure. */
  function PlayedEvents(events: seq<KeyEvent>): (r: Result<seq<KeyEvent>>)
    ensures events == [] ==> r == Ok([])
    decreases |events|
  {
    if events == [] then Ok([])
    else
      var e := events[0];
      match KeyEvents(PlayKey(e), e.kind == Down, e.kind == Up)
      case Err(err) => Err(err)
      case Ok(first) => Prepend(first, PlayedEvents(events[1..]))
  }

  // ---------------------------------------------------------------------
  // Kinds and codes of the reference lists.

  /** The scan codes the events of a list touch. */
  function Codes(events: seq<KeyEvent>): set<int>
  {
    set e | e in events :: e.code
  }

  lemma CodesConcat(a: seq<KeyEvent>, b: seq<KeyEvent>)
    ensures Codes(a + b) == Codes(a) + Codes(b)
  {
    assert forall e :: e in a + b <==> e in a || e in b;
  }

  lemma {:induction false} SendEventsKinds(chosen: seq<seq<int>>, doPress: bool, doRelease: bool)
    ensures doPress && !doRelease ==> AllOfKind(SendEvents(chosen, doPress, doRelease), Down)
    ensures !doPress && doRelease ==> AllOfKind(SendEvents(chosen, doPress, doRelease), Up)
    decreases |chosen|
  {
    if chosen != [] {
      SendEventsKinds(chosen[1..], doPress, doRelease);
    }
  }

  /** The presses and the releases of a send touch the same codes. */
  lemma {:induction false} SendEventsCodes(chosen: seq<seq<int>>)
    ensures Codes(SendEvents(chosen, true, false)) == Codes(SendEvents(chosen, false, true))
    decreases |chosen|
  {
    if chosen != [] {
      var step := chosen[0];
      var downs, ups := Synth(Down, step), Synth(Up, Reversed(step));
      var restDowns, restUps := SendEvents(chosen[1..], true, false), SendEvents(chosen[1..], false, true);
      assert SendEvents(chosen, true, false) == downs + restDowns by {
        assert downs + [] + restDowns == downs + restDowns;
      }
      assert SendEvents(chosen, false, true) == ups + restUps by {
        assert [] + ups + restUps == ups + restUps;
      }
      SendEventsCodes(chosen[1..]);
      CodesConcat(downs, restDowns);
      CodesConcat(ups, restUps);
      ReversedCodes(step);
    }
  }

  lemma ReversedCodes(step: seq<int>)
    ensures Codes(Synth(Down, step)) == Codes(Synth(Up, Reversed(step)))
  {
    forall c | c in Codes(Synth(Down, step)) ensures c in Codes(Synth(Up, Reversed(step))) {
      var i :| 0 <= i < |step| && Synth(Down, step)[i].code == c;
      assert Synth(Up, Reversed(step))[|step| - 1 - i].code == c;
    }
    forall c | c in Codes(Synth(Up, Reversed(step))) ensures c in Codes(Synth(Down, step)) {
      var i :| 0 <= i < |step| && Synth(Up, Reversed(step))[i].code == c;
      assert Synth(Down, step)[|step| - 1 - i].code == c;
    }
  }

  /** Pressing a list of names fails exactly when releasing it does, and
      both touch the same codes. */
  lemma {:induction false} NamesEventsCodes(names: seq<string>)
    ensures NamesEvents(names, true).Ok? <==> NamesEvents(names, false).Ok?
    ensures NamesEvents(names, true).Ok? ==> Codes(NamesEvents(names, true).value) == Codes(NamesEvents(names, false).value)
    decreases |names|
  {
    if names != [] {
      NamesEventsCodes(names[1..]);
      if KeyEvents(Name(names[0]), true, false).Ok? {
        SendEventsCodes(Chosen(ParseHotkey(Name(names[0])).value).value);
        if NamesEvents(names[1..], true).Ok? {
          CodesConcat(KeyEvents(Name(names[0]), true, false).value, NamesEvents(names[1..], true).value);
          CodesConcat(KeyEvents(Name(names[0]), false, true).value, NamesEvents(names[1..], false).value);
        }
      }
    }
  }

  /** Downs add exactly their codes to the pressed keys; Ups remove exactly
      theirs. */
  lemma {:induction false} TrackAllKinds(p: Pressed, events: seq<KeyEvent>)
    ensures AllOfKind(events, Down) ==> TrackAll(p, events).Keys == p.Keys + Codes(events)
    ensures AllOfKind(events, Up) ==> TrackAll(p, events).Keys == p.Keys - Codes(events)
    decreases |events|
  {
    if events != [] {
      TrackAllKinds(Track(p, events[0]), events[1..]);
      assert events == [events[0]] + events[1..];
      CodesConcat([events[0]], events[1..]);
      assert Codes([events[0]]) == {events[0].code};
    }
  }

  /** Pressing and releasing every step of a send leaves no new key down. */
  lemma {:induction false} PressReleaseKeys(p: Pressed, chosen: seq<seq<int>>)
    ensures TrackAll(p, SendEvents(chosen, true, true)).Keys <= p.Keys
    decreases |chosen|
  {
    if chosen != [] {
      var first := SendEvents([chosen[0]], true, true);
      SendOneStep(chosen[0], true, true);
      assert SendEvents(chosen, true, true) == first + SendEvents(chosen[1..], true, true);
      TrackAllConcat(p, first, SendEvents(chosen[1..], true, true));
      PressReleaseStep(p, chosen[0]);
      PressReleaseKeys(TrackAll(p, first), chosen[1..]);
    }
  }

  // ---------------------------------------------------------------------
  // What the operations emit.

  /** `r`, the result of an operation on the transparent session `s`, is `s`
      emitting `ev`: it fails exactly as `ev` does, or it stays transparent,
      its output is the earlier output followed by `ev`, and the pressed keys
      follow `ev`. */
  ghost predicate Emits(s: Session, r: Result<Session>, ev: Result<seq<KeyEvent>>)
  {
    match ev
    case Err(e) => r == Err(e)
    case Ok(events) =>
      r.Ok? && Transparent(r.value) && r.value.output == s.output + events &&
      r.value.pressed == TrackAll(s.pressed, events)
  }

  /** The same for `write`, whose unicode characters press nothing: the
      pressed keys only lose keys. */
  ghost predicate Types(s: Session, r: Result<Session>, ev: Result<seq<KeyEvent>>)
  {
    match ev
    case Err(e) => r == Err(e)
    case Ok(events) =>
      r.Ok? && Transparent(r.value) && r.value.output == s.output + events &&
      r.value.pressed.Keys <= s.pressed.Keys
  }

  /** `send` on a transparent session emits exactly its reference events
      and fails exactly as they do. */
  lemma SendEmits(s: Session, key: Key, doPress: bool, doRelease: bool)
    requires Transparent(s)
    ensures Emits(s, Send(s, key, doPress, doRelease), KeyEvents(key, doPress, doRelease))
  {
    if Send(s, key, doPress, doRelease).Ok? {
      InjectTransparent(s, SendEvents(Chosen(ParseHotkey(key).value).value, doPress, doRelease));
    }
  }

  /** Sending names one by one emits their reference events in turn. */
  lemma {:induction false} SendEachEmits(s: Session, names: seq<string>, down: bool)
    requires Transparent(s)
    ensures Emits(s, SendEach(s, names, down), NamesEvents(names, down))
    decreases |names|
  {
    if names != [] {
      var key := Name(names[0]);
      SendEmits(s, key, down, !down);
      if KeyEvents(key, down, !down).Ok? {
        var s1 := Send(s, key, down, !down).value;
        SendEachEmits(s1, names[1..], down);
        assert SendEach(s, names, down) == SendEach(s1, names[1..], down);
        EmitsPrepend(s, s1, KeyEvents(key, down, !down).value, SendEach(s1, names[1..], down), NamesEvents(names[1..], down));
      }
    }
  }

  /** Emitting `first` and then `rest` is emitting them together. */
  lemma EmitsPrepend(s: Session, s1: Session, first: seq<KeyEvent>, r: Result<Session>, rest: Result<seq<KeyEvent>>)
    requires s1.output == s.output + first && s1.pressed == TrackAll(s.pressed, first)
    requires Emits(s1, r, rest)
    ensures Emits(s, r, Prepend(first, rest))
  {
    if rest.Ok? {
      assert s.output + first + rest.value == s.output + (first + rest.value);
      TrackAllConcat(s.pressed, first, rest.value);
    }
  }

  /** The same for `Types`. */
  lemma TypesPrepend(s: Session, s1: Session, first: seq<KeyEvent>, r: Result<Session>, rest: Result<seq<KeyEvent>>)
    requires s1.output == s.output + first && s1.pressed.Keys <= s.pressed.Keys
    requires Types(s1, r, rest)
    ensures Types(s, r, Prepend(first, rest))
  {
    if rest.Ok? {
      assert s.output + first + rest.value == s.output + (first + rest.value);
    }
  }

  /** One character of `write` on a transparent session emits its reference
      events, fails exactly as they do, and leaves no new key down. */
  lemma WriteCharEmits(s: Session, c: char, exact: bool)
    requires Transparent(s)
    ensures Types(s, WriteChar(s, c, exact), CharEvents(c, exact))
  {
    if exact {
      if c == '\n' || c == '\U{0008}' {
        SendEmits(s, Name([c]), true, true);
        if KeyEvents(Name([c]), true, true).Ok? {
          PressReleaseKeys(s.pressed, Chosen(ParseHotkey(Name([c])).value).value);
        }
      }
    } else if LetterEntries(c).Some? && LetterEntries(c).value != [] {
      var (code, modifiers) := LetterEntries(c).value[0];
      WriteCharTyped(s, code, modifiers);
      assert WriteChar(s, c, false) == TypedWith(s, code, modifiers);
    }
  }

  /** A code typed inside its modifiers, as `write` does for a character of
      the table. */
  function TypedWith(s: Session, code: int, modifiers: seq<string>): Result<Session>
  {
    match SendEach(s, modifiers, true)
    case Err(e) => Err(e)
    case Ok(s1) => SendEach(Inject(s1, [KeyEvent(Down, code, None), KeyEvent(Up, code, None)]), modifiers, false)
  }

  lemma WriteCharTyped(s: Session, code: int, modifiers: seq<string>)
    requires Transparent(s)
    ensures match NamesEvents(modifiers, true)
            case Err(e) => TypedWith(s, code, modifiers) == Err(e)
            case Ok(downs) =>
              NamesEvents(modifiers, false).Ok? &&
              Types(s, TypedWith(s, code, modifiers),
                    Ok(downs + [KeyEvent(Down, code, None), KeyEvent(Up, code, None)] + NamesEvents(modifiers, false).value))
  {
    SendEachEmits(s, modifiers, true);
    NamesEventsCodes(modifiers);
    if NamesEvents(modifiers, true).Ok? {
      var downs := NamesEvents(modifiers, true).value;
      var ups := NamesEvents(modifiers, false).value;
      var tap := [KeyEvent(Down, code, None), KeyEvent(Up, code, None)];
      var s1 := SendEach(s, modifiers, true).value;
      InjectTransparent(s1, tap);
      var s2 := Inject(s1, tap);
      assert TypedWith(s, code, modifiers) == SendEach(s2, modifiers, false);
      SendEachEmits(s2, modifiers, false);
      var t := SendEach(s2, modifiers, false).value;
      TapKeys(s.pressed, downs, code, ups);
      Assoc4(s.output, downs, tap, ups);
    }
  }

  lemma Assoc4(a: seq<KeyEvent>, b: seq<KeyEvent>, c: seq<KeyEvent>, d: seq<KeyEvent>)
    ensures a + b + c + d == a + (b + c + d)
  {
  }

  /** Modifiers pressed, a code pressed and released, the same modifiers
      released: no key is left down that was not down before. */
  lemma TapKeys(p: Pressed, downs: seq<KeyEvent>, code: int, ups: seq<KeyEvent>)
    requires AllOfKind(downs, Down) && AllOfKind(ups, Up) && Codes(downs) == Codes(ups)
    ensures TrackAll(TrackAll(TrackAll(p, downs), [KeyEvent(Down, code, None), KeyEvent(Up, code, None)]), ups).Keys <= p.Keys
  {
    var p1 := TrackAll(p, downs);
    TrackAllKinds(p, downs);
    TrackAllTwoKeys(p1, code);
    var p2 := TrackAll(p1, [KeyEvent(Down, code, None), KeyEvent(Up, code, None)]);
    TrackAllKinds(p2, ups);
  }

  lemma TrackAllTwoKeys(p: Pressed, code: int)
    ensures TrackAll(p, [KeyEvent(Down, code, None), KeyEvent(Up, code, None)]).Keys == p.Keys - {code}
  {
    var d := KeyEvent(Down, code, None);
    var u := KeyEvent(Up, code, None);
    assert [d, u][1..] == [u] && [u][1..] == [];
    assert TrackAll(p, [d, u]) == TrackAll(Track(p, d), [u]);
    assert TrackAll(Track(p, d), [u]) == Track(Track(p, d), u);
  }

  /** `write`'s characters one after the other emit the text's reference
      events. */
  lemma {:induction false} WriteCharsEmits(s: Session, text: string, exact: bool)
    requires Transparent(s)
    ensures Types(s, WriteChars(s, text, exact), TextEvents(text, exact))
    decreases |text|
  {
    if text != [] {
      WriteCharEmits(s, text[0], exact);
      if CharEvents(text[0], exact).Ok? {
        var s1 := WriteChar(s, text[0], exact).value;
        WriteCharsEmits(s1, text[1..], exact);
        assert WriteChars(s, text, exact) == WriteChars(s1, text[1..], exact);
        TypesPrepend(s, s1, CharEvents(text[0], exact).value, WriteChars(s1, text[1..], exact), TextEvents(text[1..], exact));
      }
    }
  }

  /** The modifiers among ascending codes, as `restore_modifiers` presses
      them back from nothing. */
  lemma RestoreFromNothing(codes: seq<int>)
    requires forall i, j :: 0 <= i < j < |codes| ==> codes[i] < codes[j]
    ensures RestoreEvents({}, set c | c in ModifiersOf(codes)) == Synth(Down, ModifiersOf(codes))
  {
    RestoreFromEmpty(set c | c in ModifiersOf(codes));
    ModifiersSorted(codes);
  }

  lemma RestoreFromEmpty(target: set<int>)
    ensures RestoreEvents({}, target) == Synth(Down, Sorted(target))
  {
    var none: set<int> := {};
    var ups := Synth(Up, Sorted(none - target));
    var downs := Synth(Down, Sorted(target - none));
    assert RestoreEvents(none, target) == ups + downs;
    assert |none - target| == 0;
    assert ups == [];
    assert target - none == target;
    assert ups + downs == Synth(Down, Sorted(target));
  }

  lemma ModifiersSorted(codes: seq<int>)
    requires forall i, j :: 0 <= i < j < |codes| ==> codes[i] < codes[j]
    ensures Sorted(set c | c in ModifiersOf(codes)) == ModifiersOf(codes)
  {
    ModifiersOfAscending(codes);
    AscendingUnique(Sorted(set c | c in ModifiersOf(codes)), ModifiersOf(codes));
  }

  lemma {:induction false} ModifiersOfAscending(codes: seq<int>)
    requires forall i, j :: 0 <= i < j < |codes| ==> codes[i] < codes[j]
    ensures forall i, j :: 0 <= i < j < |ModifiersOf(codes)| ==> ModifiersOf(codes)[i] < ModifiersOf(codes)[j]
    decreases |codes|
  {
    if codes != [] {
      var tail := codes[1..];
      ModifiersOfAscending(tail);
      ModifiersOfKeeps(tail);
      var rest := ModifiersOf(tail);
      forall j | 0 <= j < |rest| ensures codes[0] < rest[j] {
        var c := rest[j];
        assert c in rest;
        assert c in tail;
        var k :| 0 <= k < |tail| && tail[k] == rest[j];
        assert tail[k] == codes[k + 1];
      }
      assert ModifiersOf(codes) == (if IsModifierCode(codes[0]) then [codes[0]] else []) + rest;
    }
  }

  /** `write(text, exact, restore_state_after)` on a transparent session:
      the pressed keys are released in ascending order, then the text's
      reference events follow and, when asked, the stashed modifiers are
      pressed again in ascending order. It fails exactly as the text's
      events do. */
  lemma WriteEmits(s: Session, text: string, exact: bool, restoreAfter: bool)
    requires Transparent(s)
    ensures var stashed := Sorted(s.pressed.Keys);
            match TextEvents(text, exact)
            case Err(e) => Write(s, text, exact, restoreAfter) == Err(e)
            case Ok(ev) =>
              Write(s, text, exact, restoreAfter).Ok? &&
              Write(s, text, exact, restoreAfter).value.output ==
                s.output + Synth(Up, stashed) + ev + (if restoreAfter then Synth(Down, ModifiersOf(stashed)) else [])
  {
    var (stashed, s1) := Stash(s);
    assert Transparent(s1) && s1.pressed == map[] && s1.output == s.output + Synth(Up, stashed) by {
      StashReleasesAll(s);
      NothingPressed(s1.pressed);
    }
    WriteCharsEmits(s1, text, exact);
    match TextEvents(text, exact)
    case Err(e) =>
      assert WriteChars(s1, text, exact) == Err(e);
    case Ok(ev) =>
      var s2 := WriteChars(s1, text, exact).value;
      WriteTail(s, stashed, s1, s2, ev, restoreAfter);
      assert Write(s, text, exact, restoreAfter) == Ok(if restoreAfter then RestoreModifiers(s2, stashed) else s2);
  }

  lemma NothingPressed(p: Pressed)
    requires forall c :: c !in p
    ensures p == map[]
  {
    assert forall k :: k in p.Keys ==> false;
    assert p.Keys == {};
  }

  /** The end of `write`: the typed text followed, when asked, by the
      stashed modifiers pressed again from nothing. */
  lemma WriteTail(s: Session, stashed: seq<int>, s1: Session, s2: Session, ev: seq<KeyEvent>, restoreAfter: bool)
    requires Transparent(s2) && s2.pressed.Keys == {}
    requires forall i, j :: 0 <= i < j < |stashed| ==> stashed[i] < stashed[j]
    requires s1.output == s.output + Synth(Up, stashed) && s2.output == s1.output + ev
    ensures (if restoreAfter then RestoreModifiers(s2, stashed) else s2).output ==
            s.output + Synth(Up, stashed) + ev + (if restoreAfter then Synth(Down, ModifiersOf(stashed)) else [])
  {
    if restoreAfter {
      RestoreReaches(s2, ModifiersOf(stashed));
      RestoreFromNothing(stashed);
    } else {
      assert s.output + Synth(Up, stashed) + ev + [] == s.output + Synth(Up, stashed) + ev;
    }
  }

  /** Replaying events one by one emits their reference events. */
  lemma {:induction false} PlayEventsEmits(s: Session, events: seq<KeyEvent>)
    requires Transparent(s)
    ensures Emits(s, PlayEvents(s, events), PlayedEvents(events))
    decreases |events|
  {
    if events != [] {
      var e := events[0];
      SendEmits(s, PlayKey(e), e.kind == Down, e.kind == Up);
      if KeyEvents(PlayKey(e), e.kind == Down, e.kind == Up).Ok? {
        var s1 := Send(s, PlayKey(e), e.kind == Down, e.kind == Up).value;
        PlayEventsEmits(s1, events[1..]);
        assert PlayEvents(s, events) == PlayEvents(s1, events[1..]);
        EmitsPrepend(s, s1, KeyEvents(PlayKey(e), e.kind == Down, e.kind == Up).value, PlayEvents(s1, events[1..]), PlayedEvents(events[1..]));
      }
    }
  }

  /** The modifier codes among the pressed keys. */
  function PressedModifiers(p: Pressed): set<int>
  {
    set c | c in p && IsModifierCode(c)
  }

  lemma ModifiersOfPressed(stashed: seq<int>, p: Pressed)
    requires forall c :: c in stashed <==> c in p
    ensures (set c | c in ModifiersOf(stashed)) == PressedModifiers(p)
  {
    ModifiersOfKeeps(stashed);
    forall c | c in ModifiersOf(stashed) ensures c in PressedModifiers(p) {
      assert c in stashed && IsModifierCode(c);
    }
    forall c | c in PressedModifiers(p) ensures c in ModifiersOf(stashed) {
      assert c in p && IsModifierCode(c);
      assert c in stashed;
    }
  }

  /** `play(events)` on a transparent session: the pressed keys are released
      in ascending order, the events' reference list follows, and then the
      keys it left down are released and the stashed modifiers pressed, as
      `restore_modifiers` does. It fails exactly as the reference list does. */
  lemma PlayEmits(s: Session, events: seq<KeyEvent>)
    requires Transparent(s)
    ensures var stashed := Sorted(s.pressed.Keys);
            match PlayedEvents(events)
            case Err(e) => Play(s, events) == Err(e)
            case Ok(ev) =>
              Play(s, events).Ok? &&
              Play(s, events).value.output ==
                s.output + Synth(Up, stashed) + ev +
                RestoreEvents(TrackAll(map[], ev).Keys, PressedModifiers(s.pressed))
  {
    var (stashed, s1) := Stash(s);
    assert Transparent(s1) && s1.pressed == map[] && s1.output == s.output + Synth(Up, stashed) by {
      StashReleasesAll(s);
      NothingPressed(s1.pressed);
    }
    PlayEventsEmits(s1, events);
    if PlayedEvents(events).Ok? {
      PlayTail(s, stashed, s1, PlayEvents(s1, events).value, PlayedEvents(events).value);
    }
  }

  /** The end of `play`: the replayed events followed by what
      `restore_modifiers` sends from the keys they left down. */
  lemma PlayTail(s: Session, stashed: seq<int>, s1: Session, s2: Session, ev: seq<KeyEvent>)
    requires Transparent(s2) && s1.pressed == map[] && s2.pressed == TrackAll(s1.pressed, ev)
    requires forall c :: c in stashed <==> c in s.pressed
    requires s1.output == s.output + Synth(Up, stashed) && s2.output == s1.output + ev
    ensures RestoreModifiers(s2, stashed).output ==
            s.output + Synth(Up, stashed) + ev + RestoreEvents(TrackAll(map[], ev).Keys, PressedModifiers(s.pressed))
  {
    var target := set c | c in ModifiersOf(stashed);
    ModifiersOfPressed(stashed, s.pressed);
    assert RestoreModifiers(s2, stashed).output == s2.output + RestoreEvents(s2.pressed.Keys, target) by {
      RestoreReaches(s2, ModifiersOf(stashed));
    }
    assert s2.pressed.Keys == TrackAll(map[], ev).Keys;
    assert RestoreEvents(s2.pressed.Keys, target) == RestoreEvents(TrackAll(map[], ev).Keys, PressedModifiers(s.pressed));
    assert s2.output == s.output + Synth(Up, stashed) + ev;
  }
}
