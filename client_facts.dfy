/** Properties of the public operations: registration and removal undo each
    other, the restorers reach the state they are given and are idempotent,
    `stash_state` releases everything, `send` balances its presses, and a
    recording returns what was forwarded. */
module ClientFacts {
  import opened Events
  import opened Keys
  import opened Listener
  import opened Client
  import opened DispatchFacts

  // ---------------------------------------------------------------------
  // Registration round trips.

  /** Removing a hook right after adding it gives back the session, except
      that its handle is never reused. */
  lemma HookThenUnhook(s: Session, scope: Scope, suppress: bool, filter: Filter, verdict: KeyEvent -> bool)
    requires WellFormed(s)
    ensures var (t, id) := AddHook(s, scope, suppress, filter, verdict);
            Unhook(t, id) == Ok(s.(nextId := s.nextId + 1))
  {
    var (t, id) := AddHook(s, scope, suppress, filter, verdict);
    var i := FirstWhere(t.hooks, (h: Hook) => h.id == id);
    assert t.hooks[|s.hooks|].id == id;
    if i < |s.hooks| {
      assert false;
    }
    assert i == |s.hooks|;
    assert RemoveAt(t.hooks, i) == s.hooks;
  }

  /** The same for a suppressing hotkey. */
  lemma HotkeyPartThenUnhook(s: Session, hotkey: Key, inject: seq<KeyEvent>)
    requires WellFormed(s) && HookHotkeyPart(s, hotkey, inject).Ok?
    ensures var (t, id) := HookHotkeyPart(s, hotkey, inject).value;
            Unhook(t, id) == Ok(s.(nextId := s.nextId + 1))
  {
    var (t, id) := HookHotkeyPart(s, hotkey, inject).value;
    assert t.hooks == s.hooks && id == s.nextId && t.nextId == s.nextId + 1;
    var i := FirstWhere(t.hooks, (h: Hook) => h.id == id);
    if i < |t.hooks| {
      assert false;
    }
    var j := FirstWhere(t.parts, (p: Part) => p.id == id);
    assert t.parts[|s.parts|].id == id;
    if j < |s.parts| {
      assert false;
    }
    assert j == |s.parts|;
    assert RemoveAt(t.parts, j) == s.parts;
  }

  /** Unblocking a key right after blocking it gives back the session. */
  lemma BlockThenUnblock(s: Session, key: Key)
    requires forall i :: 0 <= i < |s.blocks| ==> s.blocks[i].key != key
    requires BlockKey(s, key).Ok?
    ensures UnblockKey(BlockKey(s, key).value, key) == Ok(s)
  {
    var t := BlockKey(s, key).value;
    assert t.blocks == s.blocks + [Block(key, ScanCodes(key).value)];
    var i := FirstWhere(t.blocks, (b: Block) => b.key == key);
    assert t.blocks[|s.blocks|].key == key;
    if i < |s.blocks| {
      assert false;
    }
    assert i == |s.blocks|;
    assert RemoveAt(t.blocks, i) == s.blocks;
  }

  /** Unremapping a key right after remapping it gives back the session. */
  lemma RemapThenUnremap(s: Session, src: Key, dst: Key)
    requires forall i :: 0 <= i < |s.remaps| ==> s.remaps[i].key != src
    requires RemapKey(s, src, dst).Ok?
    ensures UnremapKey(RemapKey(s, src, dst).value, src) == Ok(s)
  {
    var t := RemapKey(s, src, dst).value;
    var m := Remap(src, ScanCodes(src).value, Chosen(ParseHotkey(dst).value).value);
    assert t.remaps == s.remaps + [m];
    var i := FirstWhere(t.remaps, (r: Remap) => r.key == src);
    assert t.remaps[|s.remaps|].key == src;
    if i < |s.remaps| {
      assert false;
    }
    assert i == |s.remaps|;
    assert RemoveAt(t.remaps, i) == s.remaps;
  }

  /** Registering keeps every handle below the next one. */
  lemma HotkeyPartKeepsWellFormed(s: Session, hotkey: Key, inject: seq<KeyEvent>)
    requires WellFormed(s) && HookHotkeyPart(s, hotkey, inject).Ok?
    ensures WellFormed(HookHotkeyPart(s, hotkey, inject).value.0)
  {
    var t := HookHotkeyPart(s, hotkey, inject).value.0;
    assert forall i :: 0 <= i < |s.parts| ==> t.parts[i] == s.parts[i];
  }

  // ---------------------------------------------------------------------
  // Stash and restore.

  /** `stash_state` releases every pressed key, in ascending order, and
      leaves nothing down. */
  lemma StashReleasesAll(s: Session)
    requires Transparent(s)
    ensures var (codes, t) := Stash(s);
            Transparent(t) && t.output == s.output + Synth(Up, codes) &&
            forall c :: c !in t.pressed
  {
    var (codes, t) := Stash(s);
    InjectTransparent(s, Synth(Up, codes));
    TrackAllUps(s.pressed, codes);
  }

  /** The pressed codes after the restoring events are exactly the target. */
  lemma RestoreEventsReach(p: Pressed, target: set<int>)
    ensures forall c :: c in TrackAll(p, RestoreEvents(p.Keys, target)) <==> c in target
  {
    var ups := Sorted(p.Keys - target);
    var downs := Sorted(target - p.Keys);
    TrackAllConcat(p, Synth(Up, ups), Synth(Down, downs));
    var q := TrackAll(p, Synth(Up, ups));
    ReleasedKeys(p, target, ups, q);
    TrackAllDowns(q, downs);
    forall c ensures c in TrackAll(q, Synth(Down, downs)) <==> c in target {
      if c in target && c !in p {
        assert c in downs;
      }
    }
  }

  lemma ReleasedKeys(p: Pressed, target: set<int>, ups: seq<int>, q: Pressed)
    requires forall c :: c in ups <==> c in p.Keys - target
    requires q == TrackAll(p, Synth(Up, ups))
    ensures forall c :: c in q <==> c in p && c in target
  {
    TrackAllUps(p, ups);
  }

  /** `restore_state(codes)` leaves exactly `codes` down. */
  lemma RestoreReaches(s: Session, target: seq<int>)
    requires Transparent(s)
    ensures Transparent(RestoreState(s, target))
    ensures RestoreState(s, target).output == s.output + RestoreEvents(s.pressed.Keys, set c | c in target)
    ensures forall c :: c in RestoreState(s, target).pressed <==> c in target
  {
    var t := set c | c in target;
    InjectTransparent(s, RestoreEvents(s.pressed.Keys, t));
    RestoreEventsReach(s.pressed, t);
  }

  /** Restoring a state that is already there emits nothing. */
  lemma RestoreEventsNone(current: set<int>, target: set<int>)
    requires forall c :: c in current <==> c in target
    ensures RestoreEvents(current, target) == []
  {
    assert forall c :: c in current - target ==> false;
    assert forall c :: c in target - current ==> false;
    assert |current - target| == 0 && |target - current| == 0;
  }

  /** `restore_state` is idempotent: restoring twice emits what restoring
      once does. */
  lemma RestoreIdempotent(s: Session, target: seq<int>)
    requires Transparent(s)
    ensures RestoreState(RestoreState(s, target), target) == RestoreState(s, target)
  {
    var r := RestoreState(s, target);
    RestoreReaches(s, target);
    var t := set c | c in target;
    assert forall c :: c in r.pressed.Keys <==> c in t;
    RestoreEventsNone(r.pressed.Keys, t);
  }

  /** Restoring what `stash_state` returned puts every key back down. */
  lemma StashThenRestore(s: Session)
    requires Transparent(s)
    ensures var (codes, t) := Stash(s);
            forall c :: c in RestoreState(t, codes).pressed <==> c in s.pressed
  {
    var (codes, t) := Stash(s);
    StashReleasesAll(s);
    RestoreReaches(t, codes);
  }

  /** `restore_modifiers(codes)` leaves exactly the modifiers of `codes` down. */
  lemma RestoreModifiersReaches(s: Session, target: seq<int>)
    requires Transparent(s)
    ensures forall c :: c in RestoreModifiers(s, target).pressed <==> c in target && IsModifierCode(c)
  {
    ModifiersOfKeeps(target);
    RestoreReaches(s, ModifiersOf(target));
  }

  // ---------------------------------------------------------------------
  // Send and record.

  /** Without rules or suppressing hooks `send` emits its presses, then its
      releases, exactly. */
  lemma SendTransparent(s: Session, hotkey: Key, doPress: bool, doRelease: bool)
    requires Transparent(s) && Send(s, hotkey, doPress, doRelease).Ok?
    ensures var t := Send(s, hotkey, doPress, doRelease).value;
            Transparent(t) &&
            t.output == s.output + SendEvents(Chosen(ParseHotkey(hotkey).value).value, doPress, doRelease)
  {
    InjectTransparent(s, SendEvents(Chosen(ParseHotkey(hotkey).value).value, doPress, doRelease));
  }

  /** `press_and_release` of a one-step hotkey leaves its keys up and every
      other key as it was. */
  lemma PressAndReleaseBalanced(s: Session, hotkey: Key)
    requires Transparent(s) && PressAndRelease(s, hotkey).Ok? && |ParseHotkey(hotkey).value| == 1
    ensures var step := Chosen(ParseHotkey(hotkey).value).value[0];
            PressAndRelease(s, hotkey).value.pressed.Keys == s.pressed.Keys - set c | c in step
  {
    var chosen := Chosen(ParseHotkey(hotkey).value).value;
    assert chosen == [chosen[0]];
    InjectTransparent(s, SendEvents(chosen, true, true));
    PressReleaseStep(s.pressed, chosen[0]);
  }

  /** A recording started on a transparent session returns exactly the
      events injected since. */
  lemma RecordThenStop(s: Session, events: seq<KeyEvent>)
    requires Transparent(s) && s.recording.None?
    ensures var t := Inject(StartRecording(s).value, events);
            StopRecording(t).Ok? && StopRecording(t).value.0 == events
  {
    var s1 := StartRecording(s).value;
    assert Transparent(s1);
    InjectRecords(s1, events);
    assert [] + events == events;
  }

  /** `unhook_all` ends the capture of a recording: whatever is injected
      afterwards, stopping it returns what it held before the clear. */
  lemma UnhookAllStopsRecording(s: Session, events: seq<KeyEvent>)
    requires s.recording.Some?
    ensures var t := Inject(UnhookAll(s), events);
            StopRecording(t).Ok? && StopRecording(t).value.0 == s.recording.value.events
  {
    InjectUnhookedRecording(UnhookAll(s), events);
  }

  // ---------------------------------------------------------------------
  // write and play.

  /** Sending modifier names one by one keeps a session transparent. */
  lemma {:induction false} SendEachTransparent(s: Session, names: seq<string>, down: bool)
    requires Transparent(s) && SendEach(s, names, down).Ok?
    ensures Transparent(SendEach(s, names, down).value)
    decreases |names|
  {
    if names != [] {
      SendTransparent(s, Name(names[0]), down, !down);
      SendEachTransparent(Send(s, Name(names[0]), down, !down).value, names[1..], down);
    }
  }

  /** Typing one character keeps a session transparent. */
  lemma WriteCharTransparent(s: Session, c: char, exact: bool)
    requires Transparent(s) && WriteChar(s, c, exact).Ok?
    ensures Transparent(WriteChar(s, c, exact).value)
  {
    if exact {
      if c == '\n' || c == '\U{0008}' {
        SendTransparent(s, Name([c]), true, true);
      }
    } else if LetterEntries(c).Some? && LetterEntries(c).value != [] {
      var (code, modifiers) := LetterEntries(c).value[0];
      SendEachTransparent(s, modifiers, true);
      var s1 := SendEach(s, modifiers, true).value;
      var ev := [KeyEvent(Down, code, None), KeyEvent(Up, code, None)];
      InjectTransparent(s1, ev);
      SendEachTransparent(Inject(s1, ev), modifiers, false);
    }
  }

  /** Typing a text keeps a session transparent. */
  lemma {:induction false} WriteCharsTransparent(s: Session, text: string, exact: bool)
    requires Transparent(s) && WriteChars(s, text, exact).Ok?
    ensures Transparent(WriteChars(s, text, exact).value)
    decreases |text|
  {
    if text != [] {
      WriteCharTransparent(s, text[0], exact);
      WriteCharsTransparent(WriteChar(s, text[0], exact).value, text[1..], exact);
    }
  }

  /** `write(text, restore_state_after=True)` on a transparent session ends
      with exactly the modifiers that were held before it down: the stash
      released everything, the text was typed, and only the stashed
      modifiers came back. */
  lemma WriteRestoresModifiers(s: Session, text: string, exact: bool)
    requires Transparent(s) && Write(s, text, exact, true).Ok?
    ensures Transparent(Write(s, text, exact, true).value)
    ensures forall c :: c in Write(s, text, exact, true).value.pressed <==> c in s.pressed && IsModifierCode(c)
  {
    var (stashed, s1) := Stash(s);
    StashReleasesAll(s);
    WriteCharsTransparent(s1, text, exact);
    var s2 := WriteChars(s1, text, exact).value;
    RestoreReaches(s2, ModifiersOf(stashed));
    RestoreModifiersReaches(s2, stashed);
  }

  /** Replaying events keeps a session transparent. */
  lemma {:induction false} PlayEventsTransparent(s: Session, events: seq<KeyEvent>)
    requires Transparent(s) && PlayEvents(s, events).Ok?
    ensures Transparent(PlayEvents(s, events).value)
    decreases |events|
  {
    if events != [] {
      var e := events[0];
      SendTransparent(s, PlayKey(e), e.kind == Down, e.kind == Up);
      PlayEventsTransparent(Send(s, PlayKey(e), e.kind == Down, e.kind == Up).value, events[1..]);
    }
  }

  /** `play(events)` on a transparent session ends with exactly the
      modifiers that were held before it down, whatever the events left. */
  lemma PlayRestoresModifiers(s: Session, events: seq<KeyEvent>)
    requires Transparent(s) && Play(s, events).Ok?
    ensures Transparent(Play(s, events).value)
    ensures forall c :: c in Play(s, events).value.pressed <==> c in s.pressed && IsModifierCode(c)
  {
    var (stashed, s1) := Stash(s);
    StashReleasesAll(s);
    PlayEventsTransparent(s1, events);
    var s2 := PlayEvents(s1, events).value;
    RestoreReaches(s2, ModifiersOf(stashed));
    RestoreModifiersReaches(s2, stashed);
  }
}
