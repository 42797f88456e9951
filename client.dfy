/** The library's public operations on a session: registering and removing
    hooks, rules and suppressing hotkeys, querying the pressed state, and the
    synthetic output of `send`, `write`, `play` and the state restorers. Every
    event the operations issue goes through the full dispatch (`Inject`), as
    the OS collaborator's presses and releases do. */
module Client {
  import opened Events
  import opened Keys
  import opened Extractors
  import opened Listener

  // ---------------------------------------------------------------------
  // Sequence helpers.

  /** The index of the first element satisfying `p`, or `|xs|` when none does. */
  function FirstWhere<T>(xs: seq<T>, p: T -> bool): (i: nat)
    ensures i <= |xs|
    ensures i < |xs| ==> p(xs[i])
    ensures forall j :: 0 <= j < i ==> !p(xs[j])
  {
    if xs == [] then 0
    else if p(xs[0]) then 0
    else
      var i := 1 + FirstWhere(xs[1..], p);
      assert forall j :: 1 <= j < i ==> xs[j] == xs[1..][j - 1];
      i
  }

  function RemoveAt<T>(xs: seq<T>, i: nat): (r: seq<T>)
    requires i < |xs|
    ensures |r| == |xs| - 1
    ensures forall j :: 0 <= j < i ==> r[j] == xs[j]
    ensures forall j :: i <= j < |r| ==> r[j] == xs[j + 1]
  {
    xs[..i] + xs[i + 1..]
  }

  /** Every handle in use is below the next one to be given out. */
  predicate WellFormed(s: Session)
  {
    (forall i :: 0 <= i < |s.hooks| ==> s.hooks[i].id < s.nextId) &&
    (forall i :: 0 <= i < |s.parts| ==> s.parts[i].id < s.nextId)
  }

  // ---------------------------------------------------------------------
  // Hooks.

  /** Registers a callback and returns its handle. */
  function AddHook(s: Session, scope: Scope, suppress: bool, filter: Filter, verdict: KeyEvent -> bool): (r: (Session, nat))
    ensures r.1 == s.nextId && r.0.nextId > r.1
    ensures |r.0.hooks| == |s.hooks| + 1 && r.0.hooks[..|s.hooks|] == s.hooks
    ensures r.0.hooks[|s.hooks|].id == r.1 && r.0.hooks[|s.hooks|].scope == scope
    ensures WellFormed(s) ==> WellFormed(r.0)
  {
    var h := Hook(s.nextId, scope, suppress, filter, verdict);
    (s.(hooks := s.hooks + [h], nextId := s.nextId + 1), s.nextId)
  }

  /** `hook(callback, suppress)`: offered every event. */
  function AddGlobalHook(s: Session, verdict: KeyEvent -> bool, suppress: bool): (r: (Session, nat))
    ensures |r.0.hooks| == |s.hooks| + 1 && r.0.hooks[|s.hooks|].scope == AllKeys && r.0.hooks[|s.hooks|].filter == AnyEvent
  {
    AddHook(s, AllKeys, suppress, AnyEvent, verdict)
  }

  /** `on_press(callback, suppress)`: the callback sees only Downs. */
  function OnPress(s: Session, verdict: KeyEvent -> bool, suppress: bool): (r: (Session, nat))
    ensures |r.0.hooks| == |s.hooks| + 1 && r.0.hooks[|s.hooks|].scope == AllKeys && r.0.hooks[|s.hooks|].filter == DownsOnly
  {
    AddHook(s, AllKeys, suppress, DownsOnly, verdict)
  }

  /** `on_release(callback, suppress)`: the callback sees only Ups. */
  function OnRelease(s: Session, verdict: KeyEvent -> bool, suppress: bool): (r: (Session, nat))
    ensures |r.0.hooks| == |s.hooks| + 1 && r.0.hooks[|s.hooks|].scope == AllKeys && r.0.hooks[|s.hooks|].filter == UpsOnly
  {
    AddHook(s, AllKeys, suppress, UpsOnly, verdict)
  }

  /** `hook_key(key, callback, suppress)`: offered the events of every scan
      code the key resolves to; a key that does not resolve is an error. */
  function HookKey(s: Session, key: Key, verdict: KeyEvent -> bool, suppress: bool, filter: Filter): (r: Result<(Session, nat)>)
    ensures r.Ok? <==> ScanCodes(key).Ok?
    ensures r.Err? ==> r.error == ScanCodes(key).error
    ensures r.Ok? ==> |r.value.0.hooks| == |s.hooks| + 1 && r.value.0.hooks[..|s.hooks|] == s.hooks
    ensures r.Ok? ==> var h := r.value.0.hooks[|s.hooks|];
                      h.scope == OnKey(key, ScanCodes(key).value) && h.filter == filter
  {
    match ScanCodes(key)
    case Err(e) => Err(e)
    case Ok(codes) => Ok(AddHook(s, OnKey(key, codes), suppress, filter, verdict))
  }

  /** `on_press_key(key, callback, suppress)`. */
  function OnPressKey(s: Session, key: Key, verdict: KeyEvent -> bool, suppress: bool): (r: Result<(Session, nat)>)
    ensures r.Ok? <==> ScanCodes(key).Ok?
    ensures r.Ok? ==> |r.value.0.hooks| == |s.hooks| + 1 && r.value.0.hooks[|s.hooks|].filter == DownsOnly
  {
    HookKey(s, key, verdict, suppress, DownsOnly)
  }

  /** `on_release_key(key, callback, suppress)`. */
  function OnReleaseKey(s: Session, key: Key, verdict: KeyEvent -> bool, suppress: bool): (r: Result<(Session, nat)>)
    ensures r.Ok? <==> ScanCodes(key).Ok?
    ensures r.Ok? ==> |r.value.0.hooks| == |s.hooks| + 1 && r.value.0.hooks[|s.hooks|].filter == UpsOnly
  {
    HookKey(s, key, verdict, suppress, UpsOnly)
  }

  /** `unhook(handle)`: removes the hook, or the suppressing hotkey, the
      handle belongs to. */
  function Unhook(s: Session, id: nat): (r: Result<Session>)
    ensures r.Err? <==> (forall i :: 0 <= i < |s.hooks| ==> s.hooks[i].id != id) &&
                        (forall i :: 0 <= i < |s.parts| ==> s.parts[i].id != id)
    ensures r.Err? ==> r.error == UnknownHandle
    ensures r.Ok? ==> |r.value.hooks| + |r.value.parts| == |s.hooks| + |s.parts| - 1
    ensures r.Ok? ==> r.value.blocks == s.blocks && r.value.remaps == s.remaps && r.value.pressed == s.pressed
  {
    var i := FirstWhere(s.hooks, (h: Hook) => h.id == id);
    if i < |s.hooks| then Ok(s.(hooks := RemoveAt(s.hooks, i)))
    else
      var j := FirstWhere(s.parts, (p: Part) => p.id == id);
      if j < |s.parts| then Ok(s.(parts := RemoveAt(s.parts, j)))
      else Err(UnknownHandle)
  }

  /** `unhook_key(key)`: removes the first hook registered for that key. */
  function UnhookKey(s: Session, key: Key): (r: Result<Session>)
    ensures r.Err? <==> forall i :: 0 <= i < |s.hooks| ==> !(s.hooks[i].scope.OnKey? && s.hooks[i].scope.key == key)
    ensures r.Ok? ==> |r.value.hooks| == |s.hooks| - 1 && r.value.parts == s.parts
  {
    var i := FirstWhere(s.hooks, (h: Hook) => h.scope.OnKey? && h.scope.key == key);
    if i < |s.hooks| then Ok(s.(hooks := RemoveAt(s.hooks, i))) else Err(UnknownHandle)
  }

  /** `unhook_all()`: every hook and hotkey goes, the hook a recording
      captures through included; block and remap rules, the pressed state and
      what the recording captured so far stay. */
  function UnhookAll(s: Session): (r: Session)
    ensures r.hooks == [] && r.parts == []
    ensures r.blocks == s.blocks && r.remaps == s.remaps && r.pressed == s.pressed
    ensures r.recording.Some? <==> s.recording.Some?
    ensures r.recording.Some? ==> r.recording.value == Recording(s.recording.value.events, false)
  {
    s.(hooks := [], parts := [], recording := Unhooked(s.recording))
  }

  // ---------------------------------------------------------------------
  // Block and remap rules.

  /** `block_key(key)`: every scan code of the key is dropped from now on. */
  function BlockKey(s: Session, key: Key): (r: Result<Session>)
    ensures r.Ok? <==> ScanCodes(key).Ok?
    ensures r.Ok? ==> forall c :: c in ScanCodes(key).value ==> Blocked(r.value.blocks, c)
    ensures r.Ok? ==> forall c :: Blocked(s.blocks, c) ==> Blocked(r.value.blocks, c)
  {
    match ScanCodes(key)
    case Err(e) => Err(e)
    case Ok(codes) =>
      var blocks := s.blocks + [Block(key, codes)];
      assert forall i :: 0 <= i < |s.blocks| ==> blocks[i] == s.blocks[i];
      assert blocks[|s.blocks|].codes == codes;
      Ok(s.(blocks := blocks))
  }

  /** `unblock_key(key)`: removes the first block registered for that key. */
  function UnblockKey(s: Session, key: Key): (r: Result<Session>)
    ensures r.Err? <==> forall i :: 0 <= i < |s.blocks| ==> s.blocks[i].key != key
    ensures r.Ok? ==> |r.value.blocks| == |s.blocks| - 1
  {
    var i := FirstWhere(s.blocks, (b: Block) => b.key == key);
    if i < |s.blocks| then Ok(s.(blocks := RemoveAt(s.blocks, i))) else Err(UnknownHandle)
  }

  /** `remap_key(src, dst)`: every scan code of `src` now stands for the
      hotkey `dst`, whose codes are chosen here once. */
  function RemapKey(s: Session, src: Key, dst: Key): (r: Result<Session>)
    ensures r.Ok? <==> ScanCodes(src).Ok? && ParseHotkey(dst).Ok? && Chosen(ParseHotkey(dst).value).Ok?
    ensures r.Ok? ==> forall c :: c in ScanCodes(src).value && RemapTarget(s.remaps, c).None? ==>
                        RemapTarget(r.value.remaps, c) == Some(Chosen(ParseHotkey(dst).value).value)
  {
    match ScanCodes(src)
    case Err(e) => Err(e)
    case Ok(codes) =>
      match ParseHotkey(dst)
      case Err(e) => Err(e)
      case Ok(steps) =>
        match Chosen(steps)
        case Err(e) => Err(e)
        case Ok(target) =>
          var remaps := s.remaps + [Remap(src, codes, target)];
          forall c | c in codes && RemapTarget(s.remaps, c).None? ensures RemapTarget(remaps, c) == Some(target) {
            RemapTargetAppend(s.remaps, Remap(src, codes, target), c);
          }
          Ok(s.(remaps := remaps))
  }

  /** `unremap_key(key)`: removes the first remap registered for that key. */
  function UnremapKey(s: Session, key: Key): (r: Result<Session>)
    ensures r.Err? <==> forall i :: 0 <= i < |s.remaps| ==> s.remaps[i].key != key
    ensures r.Ok? ==> |r.value.remaps| == |s.remaps| - 1
  {
    var i := FirstWhere(s.remaps, (m: Remap) => m.key == key);
    if i < |s.remaps| then Ok(s.(remaps := RemoveAt(s.remaps, i))) else Err(UnknownHandle)
  }

  // ---------------------------------------------------------------------
  // Suppressing single-step hotkeys.

  /** Some key before the last has a code that is not a modifier. */
  predicate LeadsWithNonModifier(keys: seq<seq<int>>)
  {
    exists k :: 0 <= k < |keys| - 1 && exists c :: c in keys[k] && !IsModifierCode(c)
  }

  /** `_hook_hotkey_part(hotkey, callback, suppress=True)`: a single step
      whose keys before the last are all modifiers; the callback's effect is
      the events it injects. */
  function HookHotkeyPart(s: Session, hotkey: Key, inject: seq<KeyEvent>): (r: Result<(Session, nat)>)
    ensures ParseHotkey(hotkey).Err? ==> r == Err(ParseHotkey(hotkey).error)
    ensures ParseHotkey(hotkey).Ok? ==>
              (r.Ok? <==> |ParseHotkey(hotkey).value| == 1 && ParseHotkey(hotkey).value[0] != [] &&
                          !LeadsWithNonModifier(ParseHotkey(hotkey).value[0]))
    ensures ParseHotkey(hotkey).Ok? && r.Err? ==> r.error == UnsupportedHotkey
    ensures r.Ok? ==> r.value.1 == s.nextId && r.value.0 == s.(parts := r.value.0.parts, nextId := s.nextId + 1)
    ensures r.Ok? ==> |r.value.0.parts| == |s.parts| + 1 && r.value.0.parts[..|s.parts|] == s.parts
    ensures r.Ok? ==> var p := r.value.0.parts[|s.parts|];
                      p.id == r.value.1 && p.states == map[] && p.inject == inject &&
                      p.modifiers + [p.trigger] == ParseHotkey(hotkey).value[0]
  {
    match ParseHotkey(hotkey)
    case Err(e) => Err(e)
    case Ok(steps) =>
      if |steps| != 1 || steps[0] == [] || LeadsWithNonModifier(steps[0]) then Err(UnsupportedHotkey)
      else
        var keys := steps[0];
        var n := |keys| - 1;
        assert keys[..n] + [keys[n]] == keys;
        var p := Part(s.nextId, keys[..n], keys[n], inject, map[]);
        assert (s.parts + [p])[..|s.parts|] == s.parts && (s.parts + [p])[|s.parts|] == p;
        Ok((s.(parts := s.parts + [p], nextId := s.nextId + 1), s.nextId))
  }

  // ---------------------------------------------------------------------
  // Queries.

  /** `is_pressed(key)`: a scan code is looked up directly; otherwise the
      hotkey must be a single step and every key of it needs some code down. */
  function IsPressed(s: Session, key: Key): (r: Result<bool>)
    ensures key.Code? ==> r == Ok(key.c in s.pressed)
    ensures !key.Code? ==> (r.Ok? <==> ParseHotkey(key).Ok? && |ParseHotkey(key).value| == 1)
    ensures !key.Code? && r.Ok? ==>
              (r.value <==> forall k :: 0 <= k < |ParseHotkey(key).value[0]| ==> Held(ParseHotkey(key).value[0][k], s.pressed))
    ensures !key.Code? && ParseHotkey(key).Ok? && r.Err? ==> r.error == MultiStepQuery
  {
    if key.Code? then Ok(key.c in s.pressed)
    else
      var parsed := ParseHotkey(key);
      if parsed.Err? then Err(parsed.error)
      else if |parsed.value| > 1 then Err(MultiStepQuery)
      else
        var held := AllHeld(parsed.value[0], s.pressed.Keys);
        AllHeldPressed(parsed.value[0], s.pressed);
        Ok(held)
  }

  /** Some code of a key is down. */
  predicate Held(codes: seq<int>, p: Pressed)
  {
    exists c :: c in codes && c in p
  }

  /** The automaton's all-held test is `is_pressed`'s: every key has a code down. */
  lemma AllHeldPressed(keys: seq<seq<int>>, p: Pressed)
    ensures AllHeld(keys, p.Keys) <==> forall k :: 0 <= k < |keys| ==> Held(keys[k], p)
  {
    if AllHeld(keys, p.Keys) {
      forall k | 0 <= k < |keys| ensures Held(keys[k], p) {
        var c :| c in keys[k] && c in p.Keys;
      }
    } else {
      var k :| 0 <= k < |keys| && !exists c :: c in keys[k] && c in p.Keys;
      assert !Held(keys[k], p);
    }
  }

  /** The names of the pressed events, in scan-code order. */
  function PressedNames(s: Session): (r: Option<seq<string>>)
    ensures r.Some? <==> forall c :: c in s.pressed ==> s.pressed[c].name.Some?
    ensures r.Some? ==> |r.value| == |s.pressed|
    ensures r.Some? ==> forall c :: c in s.pressed ==> s.pressed[c].name.value in r.value
    ensures r.Some? ==> |r.value| == |Sorted(s.pressed.Keys)| &&
                        (forall i :: 0 <= i < |r.value| ==> (Sorted(s.pressed.Keys)[i] in s.pressed &&
                           r.value[i] == s.pressed[Sorted(s.pressed.Keys)[i]].name.value))
  {
    var codes := Sorted(s.pressed.Keys);
    assert forall i :: 0 <= i < |codes| ==> codes[i] in s.pressed by {
      forall i | 0 <= i < |codes| ensures codes[i] in s.pressed {
        var c := codes[i];
        assert c in codes;
      }
    }
    NamedCodes(s.pressed, codes);
    if forall i :: 0 <= i < |codes| ==> s.pressed[codes[i]].name.Some? then
      var names := seq(|codes|, i requires 0 <= i < |codes| => s.pressed[codes[i]].name.value);
      NamesCover(s.pressed, codes, names);
      Some(names)
    else None
  }

  lemma NamedCodes(p: Pressed, codes: seq<int>)
    requires forall i :: 0 <= i < |codes| ==> codes[i] in p
    requires forall c :: c in p ==> c in codes
    ensures (forall i :: 0 <= i < |codes| ==> p[codes[i]].name.Some?) <==> forall c :: c in p ==> p[c].name.Some?
  {
    if forall i :: 0 <= i < |codes| ==> p[codes[i]].name.Some? {
      forall c | c in p ensures p[c].name.Some? {
        var i :| 0 <= i < |codes| && codes[i] == c;
      }
    } else {
      var i :| 0 <= i < |codes| && p[codes[i]].name.None?;
      var c := codes[i];
      assert c in p && p[c].name.None?;
    }
  }

  lemma NamesCover(p: Pressed, codes: seq<int>, names: seq<string>)
    requires forall i :: 0 <= i < |codes| ==> codes[i] in p
    requires forall c :: c in p ==> c in codes
    requires forall i :: 0 <= i < |codes| ==> p[codes[i]].name.Some?
    requires |names| == |codes| && forall i :: 0 <= i < |codes| ==> names[i] == p[codes[i]].name.value
    ensures forall c :: c in p ==> p[c].name.value in names
  {
    forall c | c in p ensures p[c].name.value in names {
      var i :| 0 <= i < |codes| && codes[i] == c;
      assert names[i] == p[c].name.value;
    }
  }

  /** `get_hotkey_name()` with no argument: the name of what is pressed now. */
  function HotkeyNameOfPressed(s: Session): (r: Result<string>)
    ensures PressedNames(s).None? ==> r == Err(MissingName)
    ensures PressedNames(s).Some? ==> r == GetHotkeyName(PressedNames(s).value)
  {
    match PressedNames(s)
    case None => Err(MissingName)
    case Some(names) => GetHotkeyName(names)
  }

  // ---------------------------------------------------------------------
  // Synthetic output.

  /** `send(hotkey, do_press, do_release)`. */
  function Send(s: Session, hotkey: Key, doPress: bool, doRelease: bool): (r: Result<Session>)
    ensures r.Ok? <==> ParseHotkey(hotkey).Ok? && Chosen(ParseHotkey(hotkey).value).Ok?
    ensures r.Ok? ==> r.value == Inject(s, SendEvents(Chosen(ParseHotkey(hotkey).value).value, doPress, doRelease))
  {
    match ParseHotkey(hotkey)
    case Err(e) => Err(e)
    case Ok(steps) =>
      match Chosen(steps)
      case Err(e) => Err(e)
      case Ok(chosen) => Ok(Inject(s, SendEvents(chosen, doPress, doRelease)))
  }

  /** `press(hotkey)`: `send` without the release. */
  function Press(s: Session, hotkey: Key): Result<Session>
  {
    Send(s, hotkey, true, false)
  }

  /** `release(hotkey)`: `send` without the press. */
  function Release(s: Session, hotkey: Key): Result<Session>
  {
    Send(s, hotkey, false, true)
  }

  /** `press_and_release(hotkey)`: `send` with both. */
  function PressAndRelease(s: Session, hotkey: Key): Result<Session>
  {
    Send(s, hotkey, true, true)
  }

  /** `stash_state()`: the pressed codes in ascending order, each released. */
  function Stash(s: Session): (r: (seq<int>, Session))
    ensures forall c :: c in r.0 <==> c in s.pressed
    ensures forall i, j :: 0 <= i < j < |r.0| ==> r.0[i] < r.0[j]
    ensures r.1 == Inject(s, Synth(Up, r.0))
  {
    var codes := Sorted(s.pressed.Keys);
    (codes, Inject(s, Synth(Up, codes)))
  }

  /** The releases and then the presses that take `current` to `target`,
      each group in ascending order. */
  function RestoreEvents(current: set<int>, target: set<int>): (r: seq<KeyEvent>)
    ensures forall i :: 0 <= i < |r| ==> (r[i].kind == Up <==> r[i].code in current - target)
    ensures forall i :: 0 <= i < |r| ==> r[i].code in (current - target) + (target - current)
    ensures |r| == |current - target| + |target - current|
  {
    var ups := Synth(Up, Sorted(current - target));
    var downs := Synth(Down, Sorted(target - current));
    var r := ups + downs;
    forall i | 0 <= i < |r| ensures (r[i].kind == Up <==> r[i].code in current - target) && r[i].code in (current - target) + (target - current) {
      if i < |ups| {
        assert r[i] == ups[i];
        assert ups[i].code in Sorted(current - target);
      } else {
        assert r[i] == downs[i - |ups|];
        assert downs[i - |ups|].code in Sorted(target - current);
      }
    }
    r
  }

  /** `restore_state(scan_codes)`. */
  function RestoreState(s: Session, target: seq<int>): Session
  {
    Inject(s, RestoreEvents(s.pressed.Keys, set c | c in target))
  }

  /** The codes of `codes` that are modifiers, in order. */
  function ModifiersOf(codes: seq<int>): (r: seq<int>)
    ensures |r| <= |codes|
  {
    if codes == [] then []
    else (if IsModifierCode(codes[0]) then [codes[0]] else []) + ModifiersOf(codes[1..])
  }

  /** `ModifiersOf` keeps exactly the modifier codes. */
  lemma {:induction false} ModifiersOfKeeps(codes: seq<int>)
    ensures forall c :: c in ModifiersOf(codes) <==> c in codes && IsModifierCode(c)
    decreases |codes|
  {
    if codes != [] {
      ModifiersOfKeeps(codes[1..]);
      assert codes == [codes[0]] + codes[1..];
    }
  }

  /** `restore_modifiers(scan_codes)`: `restore_state` of the modifiers among
      them, which also releases every pressed key that is not one. */
  function RestoreModifiers(s: Session, target: seq<int>): Session
  {
    RestoreState(s, ModifiersOf(target))
  }

  /** The OS collaborator's `type_unicode(char)`: a Down with code 999 that
      reaches the output at once. */
  function TypeUnicode(s: Session, c: char): (r: Session)
    ensures r.output == s.output + [KeyEvent(Down, 999, Some([c]))]
    ensures r.pressed == s.pressed && r.calls == s.calls
  {
    s.(output := s.output + [KeyEvent(Down, 999, Some([c]))])
  }

  /** Sends each name of `names` in turn, pressing or releasing it. */
  function SendEach(s: Session, names: seq<string>, down: bool): (r: Result<Session>)
    ensures names == [] ==> r == Ok(s)
    decreases |names|
  {
    if names == [] then Ok(s)
    else
      match Send(s, Name(names[0]), down, !down)
      case Err(e) => Err(e)
      case Ok(s1) => SendEach(s1, names[1..], down)
  }

  /** The table entries of a character, if it has any. */
  function LetterEntries(c: char): Option<seq<Entry>>
  {
    match NormalizeName([c])
    case Ok(n) => DummyKeys(n)
    case Err(_) => None
  }

  /** One character of `write`. Exactly: a newline or backspace is sent as a
      key, anything else typed as unicode. Otherwise: a character the table
      knows is typed with its first entry, its modifiers pressed around it;
      an unknown one is typed as unicode. */
  function WriteChar(s: Session, c: char, exact: bool): (r: Result<Session>)
  {
    if exact then
      if c == '\n' || c == '\U{0008}' then Send(s, Name([c]), true, true) else Ok(TypeUnicode(s, c))
    else
      match LetterEntries(c)
      case None => Ok(TypeUnicode(s, c))
      case Some(entries) =>
        if entries == [] then Err(NoScanCode)
        else
          var (code, modifiers) := entries[0];
          match SendEach(s, modifiers, true)
          case Err(e) => Err(e)
          case Ok(s1) => SendEach(Inject(s1, [KeyEvent(Down, code, None), KeyEvent(Up, code, None)]), modifiers, false)
  }

  function WriteChars(s: Session, text: string, exact: bool): (r: Result<Session>)
    ensures text == [] ==> r == Ok(s)
    decreases |text|
  {
    if text == [] then Ok(s)
    else
      match WriteChar(s, text[0], exact)
      case Err(e) => Err(e)
      case Ok(s1) => WriteChars(s1, text[1..], exact)
  }

  /** `write(text, exact, restore_state_after)`: the pressed keys are stashed
      first and, when asked, the stashed modifiers are restored after. */
  function Write(s: Session, text: string, exact: bool, restoreAfter: bool): (r: Result<Session>)
    ensures var (stashed, s1) := Stash(s);
            match WriteChars(s1, text, exact)
            case Err(e) => r == Err(e)
            case Ok(s2) => r == Ok(if restoreAfter then RestoreModifiers(s2, stashed) else s2)
  {
    var (stashed, s1) := Stash(s);
    match WriteChars(s1, text, exact)
    case Err(e) => Err(e)
    case Ok(s2) => Ok(if restoreAfter then RestoreModifiers(s2, stashed) else s2)
  }

  /** The key `play` presses or releases for an event: its scan code, or its
      name when the code is 0 (Python's `scan_code or name`). */
  function PlayKey(e: KeyEvent): (k: Key)
    ensures e.code != 0 ==> k == Code(e.code)
    ensures e.code == 0 && e.name.Some? ==> k == Name(e.name.value)
    ensures e.code == 0 && e.name.None? ==> k == NoKey
  {
    if e.code != 0 then Code(e.code)
    else match e.name case Some(n) => Name(n) case None => NoKey
  }

  function PlayEvents(s: Session, events: seq<KeyEvent>): (r: Result<Session>)
    ensures events == [] ==> r == Ok(s)
    decreases |events|
  {
    if events == [] then Ok(s)
    else
      var e := events[0];
      match Send(s, PlayKey(e), e.kind == Down, e.kind == Up)
      case Err(err) => Err(err)
      case Ok(s1) => PlayEvents(s1, events[1..])
  }

  /** `play(events, speed_factor)` without the delays: stash, replay every
      event as a press or a release of its key, restore the stashed modifiers. */
  function Play(s: Session, events: seq<KeyEvent>): (r: Result<Session>)
    ensures var (stashed, s1) := Stash(s);
            match PlayEvents(s1, events)
            case Err(e) => r == Err(e)
            case Ok(s2) => r == Ok(RestoreModifiers(s2, stashed))
  {
    var (stashed, s1) := Stash(s);
    match PlayEvents(s1, events)
    case Err(e) => Err(e)
    case Ok(s2) => Ok(RestoreModifiers(s2, stashed))
  }

  // ---------------------------------------------------------------------
  // Recording.

  /** `start_recording()`: at most one recording is active. */
  function StartRecording(s: Session): (r: Result<Session>)
    ensures r.Ok? <==> s.recording.None?
    ensures r.Ok? ==> r.value.recording == Some(Recording([], true)) && r.value.pressed == s.pressed && r.value.output == s.output
    ensures r.Err? ==> r.error == AlreadyRecording
  {
    if s.recording.Some? then Err(AlreadyRecording) else Ok(s.(recording := Some(Recording([], true))))
  }

  /** `stop_recording()`: the events accepted since the recording started. */
  function StopRecording(s: Session): (r: Result<(seq<KeyEvent>, Session)>)
    ensures r.Ok? <==> s.recording.Some?
    ensures r.Ok? ==> r.value.0 == s.recording.value.events && r.value.1.recording.None?
    ensures r.Err? ==> r.error == NotRecording
  {
    match s.recording
    case None => Err(NotRecording)
    case Some(rec) => Ok((rec.events, s.(recording := None)))
  }
}
