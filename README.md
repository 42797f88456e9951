# Keyboard event pipeline

A Dafny model of the `keyboard` library's event pipeline, as its test suite
`keyboard/_keyboard_tests.py` drives it. The OS layer is replaced by a small
name-to-scan-code table (`dummy_keys`). Hand-built events are pumped one by
one through the listener's `direct_callback`. An accepted event is appended
to `output_events`. Presses and releases the library makes itself re-enter
the same callback; `type_unicode` appends a Down with scan code 999 directly.

The model has these parts:

- **Events** (`events.dfy`): `KeyEvent(kind, code, name)`, and the loose
  equality the tests rely on. An event the OS mock synthesises carries no
  name, yet it compares equal to the `make_event` event of the same kind and
  code.
- **Keys** (`keys.dfy`, `key_facts.dfy`, `key_cases.dfy`):
  - the `dummy_keys` table;
  - `normalize_name`;
  - `key_to_scan_codes` for names, scan codes and lists (bare `alt`, `ctrl`,
    `shift` and `windows` resolve to their left codes, then the right codes
    not already among them);
  - `is_modifier`;
  - `parse_hotkey` (steps split on `,` and an optional blank, keys on `+`
    with optional blanks).
- **Listener** (`listener.dfy`, `dispatch_facts.dfy`): a session holds
  - the pressed events keyed by scan code;
  - the block and remap rules;
  - the remap targets still held down;
  - the suppressing hotkey automata;
  - the hooks;
  - the recording;
  - the next handle;
  - the callbacks reached so far;
  - the output.

  `Dispatch` is `direct_callback`. It tracks the key first, then runs four
  stages in this order:
  1. Blocks drop the event.
  2. Remaps send their target's presses on the Down and its releases on the
     Up.
  3. Hotkey automata may claim the event and emit events of their own.
  4. Hooks decide: when a suppressing hook is offered the event, at least
     one of them must allow it.

  `Do` is the harness's `do`.
- **Client** (`client.dfy`, `client_facts.dfy`): the public API the tests
  call. That is `hook`, `on_press`, `on_release`, `hook_key`, `on_press_key`,
  `on_release_key`, `unhook`, `unhook_key` and `unhook_all`; `block_key` and
  `remap_key` with their inverses; `_hook_hotkey_part`; `is_pressed`; `send`,
  `press`, `release` and `press_and_release`; `stash_state`, `restore_state`
  and `restore_modifiers`; `write`; `start_recording` and `stop_recording`;
  `play`; and `get_hotkey_name()` of the pressed keys.
- **Extractors** (`extractors.dfy`, `extractor_cases.dfy`):
  `get_typed_strings` and `get_hotkey_name`.
- **Machine** (`keyboard.dfy`): the harness's mutable module state as a
  class `Keyboard`. Its methods (`Pump`, `Deliver`, `Dispatch`, the
  registration calls) update the fields in place with loops. Each is proved
  equal to the session function it implements.
- **Test scenarios** (`send_cases.dfy`, `hook_cases.dfy`, `rule_cases.dfy`,
  `hotkey_cases.dfy`, and the `*_cases` files above): one lemma per test
  method of `TestKeyboard`. Each states the expected `output_events` (and
  call counts, return values or errors) of the test as a property of the
  model.

Where the library's documented intent and its tests disagree, the model
follows the tests:

- `stash_state` releases every pressed key (lines 354-357), rather than only
  reporting them.
- `restore_modifiers` is `restore_state` of the modifier codes. It therefore
  also releases pressed keys that are not modifiers (line 365 expects `u_b`).
- A hotkey automaton that gives up gives back its held-back modifier Downs
  in ascending scan-code order. At lines 482-484, ctrl went down first, yet
  shift's Down comes out first.

Callbacks are modelled by what the tests observe of them:

- A hook callback is a verdict function, and each time it is reached is
  recorded as a `Call(handle, event)`; the tests' counters are the lengths
  of these lists.
- A hotkey callback is the list of events it injects (`triggered`, i.e.
  `press(999)`).
- A remap target is the list of scan codes `send` chooses for it.

## Model

| member | source | states |
|---|---|---|
| Events.Synth | keyboard/_keyboard_tests.py:62-63 | events the OS mock reports for bare scan codes: one per code, in order, of the given kind, without a name |
| Events.SameEventsConcat | keyboard/_keyboard_tests.py:107-108 | the tests' list equality is compatible with concatenation |
| Keys.EntryCodes | keyboard/_keyboard_tests.py:125-128 | a table entry list yields its scan codes in table order, one per entry |
| Keys.MakeEvent | keyboard/_keyboard_tests.py:47-48 | `make_event(kind, name)` carries the name and the scan code of the name's first table entry |
| Keys.Lower | keyboard/_keyboard_tests.py:135-138 | lower-casing maps every character and keeps the length |
| Keys.ReplaceChar | keyboard/_keyboard_tests.py:142-144 | replacing `_` by a blank changes exactly the `_` characters |
| Keys.NormalizeName | keyboard/_keyboard_tests.py:145-150 | a name normalises exactly when it is not empty, and never to the empty name |
| Keys.CanonicalIsNormal | keyboard/_keyboard_tests.py:138 | `Keys.CanonicalName`: every canonical spelling (`ctrl` for `control`, ...) is its own normal form |
| Keys.NormalizeIdempotent | keyboard/_keyboard_tests.py:135-144 | normalising twice is normalising once |
| Keys.Dedup | keyboard/_keyboard_tests.py:125-128 | duplicates are dropped, first occurrences kept, no element gained or lost, and the kept elements stay in the order of their first occurrences |
| Keys.DedupOfDistinct | keyboard/_keyboard_tests.py:125-128 | a list without duplicates is left as it is |
| Keys.Without | keyboard/_keyboard_tests.py:135-136 | the codes of one list that are not in another, and only those |
| Keys.TableCodes | keyboard/_keyboard_tests.py:125-128 | a table name gives exactly its entries' codes; a name the table lacks gives none |
| Keys.CodesOfNames | keyboard/_keyboard_tests.py:118-123 | every code of every modifier name is a modifier code |
| Keys.SplitSteps | keyboard/_keyboard_tests.py:167-169 | splitting on `,` never yields an empty list of steps |
| Keys.SplitKeys | keyboard/_keyboard_tests.py:164-166 | splitting on `+` never yields an empty list of keys |
| Keys.StepCodes | keyboard/_keyboard_tests.py:164-166 | a parsed step has one code list per key name |
| Keys.StepsCodes | keyboard/_keyboard_tests.py:167-171 | a parsed hotkey has one step per step string |
| Keys.AsSteps | keyboard/_keyboard_tests.py:154-155 | a list read as already-parsed steps keeps one step per item |
| Keys.ParseHotkey | keyboard/_keyboard_tests.py:158-171 | a parsed hotkey has at least one step |
| Keys.StepCodesOfKeys | keyboard/_keyboard_tests.py:154-155 | a flat list is one key per item |
| Keys.IndexOfIs | keyboard/_keyboard_tests.py:167-169 | the index of the first separator is the one position before which none occurs |
| KeyFacts.ResolvesViaTable | keyboard/_keyboard_tests.py:125-134 | `Keys.KeyToScanCodes`, `Keys.ScanCodes`, `Keys.DummyKeys`: a name normalising to a plain table name resolves to that name's table codes in table order |
| KeyFacts.ResolvesViaSides | keyboard/_keyboard_tests.py:135-141 | `Keys.KeyToScanCodes`, `Keys.ScanCodes`: a name normalising to `alt`, `ctrl`, `shift` or `windows` resolves to the left codes, then the right codes not already among them |
| KeyFacts.NormalAlready | keyboard/_keyboard_tests.py:135-144 | a lower-case name without `_` and without synonym normalises to itself |
| KeyFacts.PlainTableName | keyboard/_keyboard_tests.py:125-134 | `Keys.DummyKeys` read through `Keys.ScanCodes`: a normal table name resolves to its codes, strictly and leniently |
| KeyFacts.AbsentName | keyboard/_keyboard_tests.py:151-153 | `Keys.KeyToScanCodes`, strict and lenient: a normal name the table lacks is an invalid key, and resolves to nothing leniently |
| KeyFacts.WithoutDisjoint | keyboard/_keyboard_tests.py:139-141 | removing codes that do not occur changes nothing |
| KeyFacts.SidedName | keyboard/_keyboard_tests.py:135-141 | a family name resolves to its left codes and then its new right codes |
| KeyFacts.CodeResolves | keyboard/_keyboard_tests.py:129-131 | `Keys.ScanCodes`: a scan code resolves to itself alone |
| KeyFacts.ResolutionIgnoresCaseAndUnderscore | keyboard/_keyboard_tests.py:135-144 | for every name longer than one character, case and `_` versus blank do not change the resolution |
| KeyFacts.ResolutionOfNormalForm | keyboard/_keyboard_tests.py:135-138 | resolving a name and resolving its normal form agree |
| KeyFacts.CodesOfNamesWithin | keyboard/_keyboard_tests.py:118-123 | when every name resolves within a range, so does the union of their codes |
| KeyFacts.Join | keyboard/_keyboard_tests.py:164-171 | joining is at least as long as its first part |
| KeyFacts.StepStrings | keyboard/_keyboard_tests.py:170-171 | each step of a name grid is its names joined with `+` |
| KeyFacts.GridCodes | keyboard/_keyboard_tests.py:170-171 | the reference parse of a grid keeps one step per row |
| KeyFacts.JoinHasNo | keyboard/_keyboard_tests.py:164-171 | joining adds no character absent from the parts and the separator |
| KeyFacts.JoinStartsWith | keyboard/_keyboard_tests.py:164-171 | a join starts with the first part's first character |
| KeyFacts.SplitKeysJoin | keyboard/_keyboard_tests.py:164-166 | splitting plain key names joined with `+` gives them back (round trip) |
| KeyFacts.SplitStepsJoin | keyboard/_keyboard_tests.py:167-169 | splitting steps joined with `, ` gives them back (round trip) |
| KeyFacts.StepsCodesOfJoined | keyboard/_keyboard_tests.py:170-171 | resolving the formatted steps of a grid is resolving the grid name by name |
| KeyFacts.JoinLength | keyboard/_keyboard_tests.py:164-171 | a join of non-empty parts is long enough to hold every part and separator |
| KeyFacts.ParseFormatted | keyboard/_keyboard_tests.py:158-171 | parsing the `,`/`+` formatted string of any grid of plain names resolves every name of the grid in place |
| KeyFacts.StepCodesOfTwo | keyboard/_keyboard_tests.py:164-166 | the codes of a one-key and of a two-key step, key by key |
| KeyFacts.ParseLongName | keyboard/_keyboard_tests.py:158-171 | a hotkey string longer than one character is split into steps and then keys |
| KeyFacts.ParseOneStep | keyboard/_keyboard_tests.py:164-166 | a string without `,` is a single step |
| KeyFacts.SplitStepsOfTwo | keyboard/_keyboard_tests.py:167-169 | `p,q` and `p, q` both split into `p` and `q` |
| KeyFacts.StepsCodesOfTwo | keyboard/_keyboard_tests.py:167-171 | two step strings resolve step by step |
| KeyFacts.ParseTwoSteps | keyboard/_keyboard_tests.py:167-171 | a string splitting into two steps parses as those two steps |
| KeyFacts.SplitKeysSpaced | keyboard/_keyboard_tests.py:164-165 | `k1 + k2` with blanks splits into the two names |
| KeyFacts.ParseTwoKeys | keyboard/_keyboard_tests.py:164-166 | `k1 + k2` and `k1+k2` parse as the same two-key step |
| KeyFacts.ParseTwoPlainSteps | keyboard/_keyboard_tests.py:167-169 | two plain steps separated by `,` or `, ` parse as two steps |
| KeyFacts.ParseOneChar | keyboard/_keyboard_tests.py:158-163 | a one-character hotkey is one key, never split on `+` or `,` |
| KeyFacts.PairStep | keyboard/_keyboard_tests.py:170-171 | a `k1+k2` step resolves key by key |
| KeyFacts.ParseThreeKeys | keyboard/_keyboard_tests.py:476-478 | three plain names joined by `+` parse as one three-key step |
| KeyCases.Space | keyboard/_keyboard_tests.py:22 | `space` resolves to 0 |
| KeyCases.LetterA | keyboard/_keyboard_tests.py:24 | `a` resolves to 1 |
| KeyCases.LetterB | keyboard/_keyboard_tests.py:25 | `b` resolves to 2 |
| KeyCases.LetterC | keyboard/_keyboard_tests.py:26 | `c` resolves to 3 |
| KeyCases.UpperA | keyboard/_keyboard_tests.py:27 | `A` resolves to 1, then -1 |
| KeyCases.UpperB | keyboard/_keyboard_tests.py:28 | `B` resolves to 2, then -2 |
| KeyCases.UpperC | keyboard/_keyboard_tests.py:29 | `C` resolves to 3, then -3 |
| KeyCases.Alt | keyboard/_keyboard_tests.py:31-32 | `alt` resolves through its sides to 4 |
| KeyCases.LeftAlt | keyboard/_keyboard_tests.py:32 | `left alt` resolves to 4 |
| KeyCases.LeftShift | keyboard/_keyboard_tests.py:34 | `left shift` resolves to 5 |
| KeyCases.RightShift | keyboard/_keyboard_tests.py:35 | `right shift` resolves to 6 |
| KeyCases.LeftCtrl | keyboard/_keyboard_tests.py:37 | `left ctrl` resolves to 7 |
| KeyCases.Backspace | keyboard/_keyboard_tests.py:39 | `backspace` resolves to 8 |
| KeyCases.CapsLock | keyboard/_keyboard_tests.py:40 | `caps lock` resolves to 9 |
| KeyCases.PlusSign | keyboard/_keyboard_tests.py:42 | `+` resolves to 10 |
| KeyCases.CommaSign | keyboard/_keyboard_tests.py:43 | `,` resolves to 11 |
| KeyCases.Underscore | keyboard/_keyboard_tests.py:44 | `_` alone resolves to 12, not read as a blank |
| KeyCases.RightAlt | keyboard/_keyboard_tests.py:21-45 | `right alt` is not in the table: an invalid key |
| KeyCases.RightCtrl | keyboard/_keyboard_tests.py:21-45 | `right ctrl` is not in the table: an invalid key |
| KeyCases.LeftWindows | keyboard/_keyboard_tests.py:21-45 | `left windows` is not in the table: an invalid key |
| KeyCases.RightWindows | keyboard/_keyboard_tests.py:21-45 | `right windows` is not in the table: an invalid key |
| KeyCases.AltGr | keyboard/_keyboard_tests.py:21-45 | `alt gr` is not in the table: an invalid key |
| KeyCases.Ctrl | keyboard/_keyboard_tests.py:138 | `ctrl` resolves to 7 |
| KeyCases.Shift | keyboard/_keyboard_tests.py:136 | `shift` resolves to 5 and 6 |
| KeyCases.Windows | keyboard/_keyboard_tests.py:21-45 | `windows` resolves to no codes, without error: both its sides are absent from the table |
| KeyCases.TableNamesResolve | keyboard/_keyboard_tests.py:125-128 | every table name resolves to its entries' codes in table order (`test_key_to_scan_codes_brute`) |
| KeyCases.UpperShift | keyboard/_keyboard_tests.py:137 | `SHIFT` resolves to 5 and 6 |
| KeyCases.UpperControl | keyboard/_keyboard_tests.py:138 | `CONTROL` resolves as `ctrl` does |
| KeyCases.UnderscoredRightShift | keyboard/_keyboard_tests.py:144 | `right_shift` resolves to 6 |
| KeyCases.InvalidKeys | keyboard/_keyboard_tests.py:145-153 | `None`, the empty name, a value of another type and `invalid` are all invalid keys |
| KeyCases.ListResolves | keyboard/_keyboard_tests.py:154-155 | `[10, 5, 'a']` resolves to 10, 5, 1 |
| KeyCases.ModifierNamesAreModifiers | keyboard/_keyboard_tests.py:118-120 | `Keys.IsModifierName`: every name of `all_modifiers` is a modifier; in the model this holds by the definition of `Keys.IsModifierName`, and the lemma only records the test's scenario |
| KeyCases.LeftModifiersWithin | keyboard/_keyboard_tests.py:118-123 | the left modifier names resolve within 4..7 |
| KeyCases.RightModifiersWithin | keyboard/_keyboard_tests.py:118-123 | the right modifier names resolve within 4..7 |
| KeyCases.FamiliesWithin | keyboard/_keyboard_tests.py:118-123 | the bare modifier names resolve within 4..7 |
| KeyCases.ModifierCodesBounded | keyboard/_keyboard_tests.py:121-123 | every modifier code lies in 4..7 |
| KeyCases.ModifierCodesContain | keyboard/_keyboard_tests.py:121-123 | each of 4, 5, 6, 7 is a modifier code |
| KeyCases.IsModifierCodeExactly | keyboard/_keyboard_tests.py:121-123 | `Keys.IsModifierCode`: `is_modifier` of any integer holds exactly for 4, 5, 6, 7 |
| KeyCases.ParseSimple | keyboard/_keyboard_tests.py:158-160 | `a` parses as `(((1,),),)`, `A` as `(((1,-1),),)` |
| KeyCases.ParseSeparatorNames | keyboard/_keyboard_tests.py:161-163 | `+` and `plus` parse alike, and so do `,` and `comma` |
| KeyCases.SpelledSeparator | keyboard/_keyboard_tests.py:161-163 | a spelled-out separator parses as the single key it names |
| KeyCases.ParseKeys | keyboard/_keyboard_tests.py:164-166 | `left shift + a` and `left shift+a` parse as `(((5,),(1,)),)` |
| KeyCases.ParseSteps | keyboard/_keyboard_tests.py:167-169 | `a,b` and `a, b` parse as two one-key steps |
| KeyCases.ParseStepsOfPairs | keyboard/_keyboard_tests.py:170-171 | `a+b, b+c` parses as `(((1,),(2,)),((2,),(3,)))` |
| KeyCases.ModifierFamiliesPlain | keyboard/_keyboard_tests.py:224-229 | `ctrl` resolves to 7, `shift` to 5 and 6 |
| KeyCases.ParseCtrlA | keyboard/_keyboard_tests.py:224-226 | `ctrl+a` is one step of 7 and 1 |
| KeyCases.ParseShiftLetter | keyboard/_keyboard_tests.py:191-193 | `shift+a` and `shift+b` are one step: both shift codes, then the letter |
| KeyCases.ParseAPlusB | keyboard/_keyboard_tests.py:501-503 | `a+b` is one step of two letters |
| KeyCases.ParseCtrlShiftA | keyboard/_keyboard_tests.py:476-478 | `ctrl+shift+a` is one step of 7, then 5 and 6, then 1 |
| KeyCases.ParseLetterB | keyboard/_keyboard_tests.py:339-341 | `b` alone is one step of code 2 |
| KeyCases.ParseShift | keyboard/_keyboard_tests.py:373-375 | `shift` alone is one step of codes 5 and 6 |
| Listener.Track | keyboard/_keyboard_tests.py:173-200 | a Down records its event under its code, an Up forgets the code, and every other code keeps its entry |
| Listener.TrackAllConcat | keyboard/_keyboard_tests.py:101-104 | tracking a list is tracking its parts in turn |
| Listener.TrackAllUps | keyboard/_keyboard_tests.py:354-357 | releasing codes leaves exactly the other keys down |
| Listener.TrackAllDowns | keyboard/_keyboard_tests.py:358-361 | pressing codes adds exactly those keys |
| Listener.MinOf | keyboard/_keyboard_tests.py:354-356 | the least element of a non-empty set of codes |
| Listener.Sorted | keyboard/_keyboard_tests.py:354-356 | `sorted(codes)`: strictly ascending, the same elements, no more |
| Listener.AscendingUnique | keyboard/_keyboard_tests.py:354-356 | two ascending lists of the same codes are equal |
| Listener.Fresh | keyboard/_keyboard_tests.py:93-99 | after `tearDown` nothing is pressed, nothing recorded, the output empty |
| Listener.Record | keyboard/_keyboard_tests.py:396-399 | a recording in progress gains the event at its end; no recording stays none |
| Listener.Reversed | keyboard/_keyboard_tests.py:224-226 | the codes in reverse order |
| Listener.Chosen | keyboard/_keyboard_tests.py:227-229 | `send` uses the first code of every key, keeping steps and keys in place; a key without codes is an error |
| Listener.SendOneStep | keyboard/_keyboard_tests.py:224-229 | sending one step presses its codes in order and releases them in reverse |
| Listener.PressReleaseStep | keyboard/_keyboard_tests.py:220-222 | pressing and releasing a step leaves its keys up and the others as they were |
| Listener.RunParts | keyboard/_keyboard_tests.py:473-493 | the automaton stage keeps the automata one for one |
| Listener.RemapTarget | keyboard/_keyboard_tests.py:339-352 | a code is remapped exactly when some rule covers it, to the target of the first such rule |
| Listener.RemapTargetAppend | keyboard/_keyboard_tests.py:339-341 | a new rule decides every code of its source that no earlier rule covers |
| Listener.BufferedCodes | keyboard/_keyboard_tests.py:482-484 | the held-back modifier codes, in ascending order |
| Listener.Settle | keyboard/_keyboard_tests.py:485-490 | every held-back modifier changes to the given state; the others keep theirs |
| Listener.CallsOf | keyboard/_keyboard_tests.py:241-284 | the callbacks an event reaches among the suppressing or the other hooks: at most one per hook, each with the event, each a hook that is offered and wants it |
| Listener.InjectConcat | keyboard/_keyboard_tests.py:101-106 | `Listener.Inject`: pumping a list is pumping its parts in turn |
| Listener.Do | keyboard/_keyboard_tests.py:101-111 | the harness's `do` leaves the output empty for the next round |
| Client.FirstWhere | keyboard/_keyboard_tests.py:300 | the index of the first registration that matches, or none |
| Client.RemoveAt | keyboard/_keyboard_tests.py:300 | one registration removed, the others kept in order |
| Client.AddHook | keyboard/_keyboard_tests.py:246 | a new hook is added last under a new handle; earlier hooks are untouched |
| Client.AddGlobalHook | keyboard/_keyboard_tests.py:246 | `hook` is offered every key and every event |
| Client.OnPress | keyboard/_keyboard_tests.py:276-281 | `on_press` is offered every key and sees only Downs |
| Client.OnRelease | keyboard/_keyboard_tests.py:282-284 | `on_release` is offered every key and sees only Ups |
| Client.HookKey | keyboard/_keyboard_tests.py:286-293 | `hook_key` fails exactly when the key does not resolve; otherwise it covers all the key's codes |
| Client.OnPressKey | keyboard/_keyboard_tests.py:318-323 | `on_press_key`: a key hook that sees only Downs |
| Client.OnReleaseKey | keyboard/_keyboard_tests.py:324-326 | `on_release_key`: a key hook that sees only Ups |
| Client.Unhook | keyboard/_keyboard_tests.py:249 | `unhook` fails exactly for an unknown handle, removes one registration, and keeps rules and pressed keys |
| Client.UnhookKey | keyboard/_keyboard_tests.py:300 | `unhook_key` fails exactly when no hook is on that key, otherwise removes one |
| Client.UnhookAll | keyboard/_keyboard_tests.py:255 | every hook and hotkey goes, and so does the recording's own hook: a running recording keeps the events it captured and stops capturing; rules and pressed keys stay |
| Client.BlockKey | keyboard/_keyboard_tests.py:328-329 | `block_key` fails exactly when the key does not resolve; all its codes are blocked, and earlier blocks stay |
| Client.UnblockKey | keyboard/_keyboard_tests.py:332 | `unblock_key` fails exactly when no block has that key, otherwise removes one |
| Client.RemapKey | keyboard/_keyboard_tests.py:339-340 | `remap_key` fails exactly when the source or the target does not resolve; every source code not already remapped now maps to the target's chosen codes |
| Client.UnremapKey | keyboard/_keyboard_tests.py:342 | `unremap_key` fails exactly when no remap has that key, otherwise removes one |
| Client.HookHotkeyPart | keyboard/_keyboard_tests.py:473-503 | `_hook_hotkey_part` refuses anything but one step whose keys before the last are modifiers, and otherwise adds one automaton under a new handle, changing nothing else |
| Client.IsPressed | keyboard/_keyboard_tests.py:173-200 | a scan code is pressed when it is down; a one-step hotkey when every key has some code down; a hotkey of more steps is an error |
| Client.AllHeldPressed | keyboard/_keyboard_tests.py:191-196 | the automaton's all-held test is `is_pressed`'s every-key-has-a-code-down test |
| Client.PressedNames | keyboard/_keyboard_tests.py:447-449 | the names of the pressed events in scan-code order, one per pressed key; none when a pressed event has no name |
| Client.HotkeyNameOfPressed | keyboard/_keyboard_tests.py:447-449 | `get_hotkey_name()` is `get_hotkey_name` of the pressed names |
| Client.Send | keyboard/_keyboard_tests.py:202-229 | `send` fails exactly when the hotkey does not parse or a key has no code; otherwise it pumps the chosen presses and releases |
| Client.Stash | keyboard/_keyboard_tests.py:354-357 | `stash_state` returns exactly the pressed codes, ascending, and pumps their releases |
| Client.RestoreEvents | keyboard/_keyboard_tests.py:358-361 | the releases of the codes to leave and the presses of the codes to add, nothing else |
| Client.ModifiersOfKeeps | keyboard/_keyboard_tests.py:362-365 | the modifier filter keeps exactly the modifier codes |
| Client.TypeUnicode | keyboard/_keyboard_tests.py:64 | `type_unicode` appends a Down with code 999 named by the character, and touches nothing else |
| Client.SendEach | keyboard/_keyboard_tests.py:373-375 | sending no modifier names does nothing |
| Client.WriteChars | keyboard/_keyboard_tests.py:367-394 | writing no text does nothing |
| Client.PlayKey | keyboard/_keyboard_tests.py:404-406 | `play` uses an event's scan code, or its name when the code is 0 |
| Client.PlayEvents | keyboard/_keyboard_tests.py:404-406 | playing no events does nothing |
| Client.StartRecording | keyboard/_keyboard_tests.py:396-399 | `start_recording` succeeds exactly when no recording is held, and starts an empty one whose hook is installed |
| Client.StopRecording | keyboard/_keyboard_tests.py:396-402 | `stop_recording` fails exactly when no recording is held, and otherwise returns the events it captured and ends it |
| ClientFacts.HookThenUnhook | keyboard/_keyboard_tests.py:246-251 | `unhook` right after `hook` gives back the session, except that the handle is spent |
| ClientFacts.HotkeyPartThenUnhook | keyboard/_keyboard_tests.py:473-475 | the same for a suppressing hotkey |
| ClientFacts.BlockThenUnblock | keyboard/_keyboard_tests.py:328-333 | `unblock_key` right after `block_key` gives back the session |
| ClientFacts.RemapThenUnremap | keyboard/_keyboard_tests.py:339-343 | `unremap_key` right after `remap_key` gives back the session |
| ClientFacts.HotkeyPartKeepsWellFormed | keyboard/_keyboard_tests.py:473-475 | registering keeps every handle below the next one |
| ClientFacts.StashReleasesAll | keyboard/_keyboard_tests.py:354-357 | `stash_state` releases every pressed key in ascending order, and nothing is left down |
| ClientFacts.RestoreEventsReach | keyboard/_keyboard_tests.py:358-361 | after the restoring events exactly the target codes are down |
| ClientFacts.RestoreReaches | keyboard/_keyboard_tests.py:358-361 | `Client.RestoreState`: `restore_state(codes)` leaves exactly `codes` down and emits only the restoring events |
| ClientFacts.RestoreEventsNone | keyboard/_keyboard_tests.py:358-361 | restoring the state already there emits nothing |
| ClientFacts.RestoreIdempotent | keyboard/_keyboard_tests.py:358-361 | restoring twice is restoring once |
| ClientFacts.StashThenRestore | keyboard/_keyboard_tests.py:380-383 | restoring what `stash_state` returned puts every key back down |
| ClientFacts.RestoreModifiersReaches | keyboard/_keyboard_tests.py:362-365 | `Client.RestoreModifiers`: `restore_modifiers(codes)` leaves exactly the modifiers of `codes` down |
| ClientFacts.SendTransparent | keyboard/_keyboard_tests.py:202-229 | without rules or suppressing hooks `send` emits its presses, then its releases, exactly |
| ClientFacts.PressAndReleaseBalanced | keyboard/_keyboard_tests.py:220-222 | `Client.PressAndRelease`: `press_and_release` of a one-step hotkey leaves its keys up and every other key as it was |
| ClientFacts.RecordThenStop | keyboard/_keyboard_tests.py:396-399 | a recording returns exactly the events pumped since it started |
| ClientFacts.UnhookAllStopsRecording | keyboard/_keyboard_tests.py:255 | after `unhook_all`, whatever is pumped, `stop_recording` returns exactly the events recorded before the clear |
| ClientFacts.SendEachTransparent | keyboard/_keyboard_tests.py:373-375 | pressing or releasing modifier names one by one never adds a rule or a suppressing hook |
| ClientFacts.WriteCharTransparent | keyboard/_keyboard_tests.py:367-394 | typing one character, by key or as unicode, keeps the session transparent |
| ClientFacts.WriteCharsTransparent | keyboard/_keyboard_tests.py:367-394 | typing a whole text keeps the session transparent |
| ClientFacts.WriteRestoresModifiers | keyboard/_keyboard_tests.py:380-383 | after `write` with restoring, exactly the modifiers held before it are down again, whatever the text |
| ClientFacts.PlayEventsTransparent | keyboard/_keyboard_tests.py:404-410 | replaying events keeps the session transparent |
| ClientFacts.PlayRestoresModifiers | keyboard/_keyboard_tests.py:407-410 | after `play`, exactly the modifiers held before it are down again, whatever the events pressed or released |
| OutputFacts.SendEmits | keyboard/_keyboard_tests.py:202-229 | `Client.Send`, `Client.Press`, `Client.Release`, `Client.PressAndRelease` without rules or suppressing hooks: the call fails exactly as the key's reference events (`OutputFacts.KeyEvents`, built from the key alone) do, and otherwise appends exactly those events to the output, the pressed keys following them |
| OutputFacts.SendEachEmits | keyboard/_keyboard_tests.py:373-375 | pressing or releasing modifier names one by one appends the names' reference events in turn, or fails with the first failure |
| OutputFacts.WriteCharEmits | keyboard/_keyboard_tests.py:367-375 | `Client.WriteChar`: one character appends its reference events: exactly, a newline or backspace pressed and released and anything else one unicode Down; otherwise a table character's first-entry code pressed and released inside that entry's modifiers, and an unknown one a unicode Down; it fails exactly as those events do and leaves no new key down |
| OutputFacts.WriteCharsEmits | keyboard/_keyboard_tests.py:367-394 | typing a text appends the reference events of its characters in order, or fails with the first failure |
| OutputFacts.WriteEmits | keyboard/_keyboard_tests.py:367-394 | `Client.Write`: `write` releases every pressed key in ascending order, appends the text's reference events and, when asked, presses the stashed modifiers again in ascending order; it fails exactly as the text's events do |
| OutputFacts.PlayEventsEmits | keyboard/_keyboard_tests.py:404-406 | replaying events appends each one's key pressed or released, in order, or fails with the first failure |
| OutputFacts.PlayEmits | keyboard/_keyboard_tests.py:404-410 | `Client.Play`: `play` releases every pressed key in ascending order, appends the events' reference list, then releases what they left down and presses the stashed modifiers again; it fails exactly as the reference list does |
| DispatchFacts.AcceptedBy | keyboard/_keyboard_tests.py:258-275 | the events a hook list lets through are, in order, among the input and accepted |
| DispatchFacts.NoSuppressingHook | keyboard/_keyboard_tests.py:241-257 | `Listener.Accepts`, `Listener.RunHooks`: without a suppressing hook no callback decides and every event passes |
| DispatchFacts.AcceptedByAll | keyboard/_keyboard_tests.py:241-257 | without a suppressing hook every event of a list passes |
| DispatchFacts.StepRulesFree | keyboard/_keyboard_tests.py:241-284 | with no rules, an event is forwarded exactly when the hooks accept it, and is recorded and tracked accordingly |
| DispatchFacts.StepRulesFreeOutput | keyboard/_keyboard_tests.py:241-284 | `Listener.Step`, `Listener.RunHooks`: the same, on the output alone |
| DispatchFacts.StepRulesFreeCalls | keyboard/_keyboard_tests.py:241-284 | `Listener.RunHooks`: the same, on the callbacks alone: suppressing hooks first, the others only on acceptance |
| DispatchFacts.StepTransparentRecord | keyboard/_keyboard_tests.py:396-399 | on a transparent session every event is recorded |
| DispatchFacts.InjectRulesFreeState | keyboard/_keyboard_tests.py:241-284 | with no rules, pumping keeps the hooks and handles, and the pressed state follows every event, forwarded or not |
| DispatchFacts.InjectRulesFree | keyboard/_keyboard_tests.py:258-275 | `Listener.Inject`: with no rules, the output is what the hooks accept |
| DispatchFacts.InjectTransparent | keyboard/_keyboard_tests.py:202-229 | `Listener.Inject`: with nothing to hold events back, the events reach the output as they are |
| DispatchFacts.InjectRulesFreeCalls | keyboard/_keyboard_tests.py:241-257 | with no rules, the callbacks reached are those `CallsFor` lists |
| DispatchFacts.InjectRecords | keyboard/_keyboard_tests.py:396-399 | while the recording's hook is installed every forwarded event is appended to it; a missing recording stays missing |
| DispatchFacts.StepUnhookedRecording | keyboard/_keyboard_tests.py:396-399 | `Listener.Step`: once the recording's hook is removed, or when there is no recording, an event leaves the recording as it is |
| DispatchFacts.InjectUnhookedRecording | keyboard/_keyboard_tests.py:396-399 | `Listener.Inject`: the same for any list of events |
| DispatchFacts.SingleSuppressingHook | keyboard/_keyboard_tests.py:279-281 | `Listener.Accepts`: a single suppressing hook forwards the event exactly when its callback returns true (or when its filter does not want that kind) |
| DispatchFacts.NonSuppressingIrrelevant | keyboard/_keyboard_tests.py:241-257 | `Listener.Accepts`: a hook that does not suppress never changes the verdict |
| DispatchFacts.OneAllowSuffices | keyboard/_keyboard_tests.py:258-275 | `Listener.Accepts`: one suppressing hook that allows the event outweighs any that do not |
| DispatchFacts.FilterSkipsOtherKind | keyboard/_keyboard_tests.py:276-284 | an `on_press` hook is never consulted on an Up, nor an `on_release` hook on a Down |
| DispatchFacts.BlockedDropped | keyboard/_keyboard_tests.py:328-337 | `Listener.Dispatch`, `Listener.Step`: a blocked code is dropped before any hotkey or hook sees it; only the pressed state notes it |
| DispatchFacts.PlainStep | keyboard/_keyboard_tests.py:101-106 | `Listener.Dispatch`, `Listener.Step`: an event no rule, automaton or hook can decide is forwarded as it is |
| DispatchFacts.Unblocked | keyboard/_keyboard_tests.py:328-337 | the events whose code no block covers, in order |
| DispatchFacts.BlocksOnlyStep | keyboard/_keyboard_tests.py:328-337 | with only blocks, an event is forwarded unless its code is blocked |
| DispatchFacts.InjectBlocksOnlyState | keyboard/_keyboard_tests.py:328-337 | with only blocks, pumping keeps the blocks, handles and calls |
| DispatchFacts.InjectBlocksOnly | keyboard/_keyboard_tests.py:328-337 | with only blocks, `do` forwards exactly the events whose code is not blocked |
| DispatchFacts.OnePartStep | keyboard/_keyboard_tests.py:473-493 | `Listener.Dispatch`, `Listener.Step`: one hotkey automaton: its emissions come first, then the event unless claimed |
| DispatchFacts.PartOnlyStep | keyboard/_keyboard_tests.py:473-493 | the same on a session whose only rule is that automaton |
| DispatchFacts.InjectPartOnlyState | keyboard/_keyboard_tests.py:473-493 | the automaton is kept, in the state the events drive it to |
| DispatchFacts.InjectPartOnly | keyboard/_keyboard_tests.py:473-493 | `do` emits exactly what the automaton lets through |
| DispatchFacts.PartOutputCons | keyboard/_keyboard_tests.py:473-493 | what the automaton lets through, one event at a time |
| DispatchFacts.RemapDown | keyboard/_keyboard_tests.py:339-341 | `Listener.Dispatch` and `Listener.Replay`: the Down of a remapped key emits its target's presses and remembers the target for the Up |
| DispatchFacts.RemapUp | keyboard/_keyboard_tests.py:339-341 | `Listener.Dispatch` and `Listener.Replay`: the Up of a remapped key releases the target its Down pressed, even when the rule has gone since |
| DispatchFacts.RemapUpUnseen | keyboard/_keyboard_tests.py:339-341 | `Listener.Dispatch` and `Listener.Replay`: the Up of a remapped key whose Down went unseen releases the current target |
| DispatchFacts.TrackAllMonotone | keyboard/_keyboard_tests.py:173-200 | Downs never release a key; Ups never press one |
| DispatchFacts.SendEventsKinds | keyboard/_keyboard_tests.py:202-219 | `send`'s presses are all Downs and its releases all Ups |
| DispatchFacts.PressedFollowsEvent | keyboard/_keyboard_tests.py:173-200 | without hotkeys a key is down right after its Down and up right after its Up, whatever blocks, remaps or hooks decide |
| DispatchFacts.PartPassesUps | keyboard/_keyboard_tests.py:488-490 | `Listener.PartStep`: an Up is never claimed and never fires; a modifier's Up clears its state |
| DispatchFacts.PartBuffersModifier | keyboard/_keyboard_tests.py:476-478 | `Listener.PartStep`: the first Down of a modifier is held back and remembered |
| DispatchFacts.PartFires | keyboard/_keyboard_tests.py:473-478 | `Listener.PartStep`: the trigger with every modifier down fires, is swallowed with the held-back modifiers, and only the callback's events come out |
| DispatchFacts.PartFlushes | keyboard/_keyboard_tests.py:482-487 | `Listener.PartStep`: any other key gives back the held-back modifier Downs in ascending code order and passes |
| DispatchFacts.PartReleasesBuffered | keyboard/_keyboard_tests.py:479-481 | `Listener.PartStep`: releasing a held-back modifier first emits its Down |
| Extractors.ShortDoesNotContain | keyboard/_keyboard_tests.py:418-431 | a string shorter than a pattern does not contain it |
| Extractors.ContainsChars | keyboard/_keyboard_tests.py:418-431 | a string contains every character of each string it contains |
| Extractors.NoShift | keyboard/_keyboard_tests.py:426-428 | no name without an `h` is a shift key |
| Extractors.ContainsSuffix | keyboard/_keyboard_tests.py:426-428 | a string contains each of its suffixes |
| Extractors.DropLast | keyboard/_keyboard_tests.py:421-425 | backspace removes the last character, and nothing from the empty string |
| Extractors.Upper | keyboard/_keyboard_tests.py:426-428 | upper-casing maps every character and keeps the length |
| Extractors.ReplaceAllRemoves | keyboard/_keyboard_tests.py:439-442 | replacing `+` by `plus` leaves no `+` |
| Extractors.ReplaceAllAbsent | keyboard/_keyboard_tests.py:433-434 | a name without the pattern is left as it is |
| Extractors.RoleOf | keyboard/_keyboard_tests.py:418-431 | a printable key types exactly one character |
| Extractors.GetTypedStrings | keyboard/_keyboard_tests.py:418-431 | typing succeeds exactly when every event has a name, and yields at least the string being typed |
| Extractors.TypedNamed | keyboard/_keyboard_tests.py:418-431 | `Extractors.Typed`: typing fails exactly on an event without a name |
| Extractors.TypedStringCount | keyboard/_keyboard_tests.py:418-431 | there is one string more than there are Downs of string-ending keys |
| Extractors.PlainTyping | keyboard/_keyboard_tests.py:418-425 | events whose names are single characters type exactly their Downs' characters, as one string |
| Extractors.TypeFromSnoc | keyboard/_keyboard_tests.py:418-431 | `Extractors.Typed`, `Extractors.TypeEvent`: typing one more event is typing the prefix and then that event |
| Extractors.TypedForward | keyboard/_keyboard_tests.py:418-431 | `Extractors.Typed`: typing back to front and front to back agree |
| Extractors.TypeAtIsTypeFrom | keyboard/_keyboard_tests.py:418-431 | typing from a position is typing the suffix there |
| Extractors.Advance | keyboard/_keyboard_tests.py:418-431 | one event typed is one step along the list |
| Extractors.TapPrintable | keyboard/_keyboard_tests.py:418-420 | `Extractors.TypeEvent`: a tap of a printable key appends its text, as shift and caps lock show it |
| Extractors.TapBackspace | keyboard/_keyboard_tests.py:421-425 | `Extractors.TypeEvent`: a tap of backspace removes the last character |
| Extractors.TapCaps | keyboard/_keyboard_tests.py:429-431 | `Extractors.TypeEvent`: a tap of caps lock flips it |
| Extractors.TapBreaking | keyboard/_keyboard_tests.py:418-420 | `Extractors.TypeEvent`: a tap of any other key ends the current string |
| Extractors.ShiftEvent | keyboard/_keyboard_tests.py:426-428 | `Extractors.TypeEvent`: shift is on exactly while a shift key is down |
| Extractors.TypedStringsAt | keyboard/_keyboard_tests.py:418-431 | the ended strings, then the one being typed |
| Extractors.TypedBackspace | keyboard/_keyboard_tests.py:421-425 | a backspace Down removes the last character typed, nothing when nothing is typed, and never ends the string |
| Extractors.Rank | keyboard/_keyboard_tests.py:435-436 | ctrl, alt, shift and windows rank first, in that order, everything else after |
| Extractors.StrLessIrreflexive | keyboard/_keyboard_tests.py:445-446 | character order on names is irreflexive |
| Extractors.StrLessTransitive | keyboard/_keyboard_tests.py:445-446 | character order on names is transitive |
| Extractors.StrLessTotal | keyboard/_keyboard_tests.py:445-446 | character order on names is total |
| Extractors.BeforeIrreflexive | keyboard/_keyboard_tests.py:433-446 | the hotkey-name order is irreflexive |
| Extractors.BeforeTransitive | keyboard/_keyboard_tests.py:433-446 | the hotkey-name order is transitive |
| Extractors.BeforeTotal | keyboard/_keyboard_tests.py:433-446 | the hotkey-name order is total |
| Extractors.Insert | keyboard/_keyboard_tests.py:433-446 | inserting keeps the list ordered and adds exactly the new name |
| Extractors.InsertFront | keyboard/_keyboard_tests.py:433-446 | a name before the head goes in front |
| Extractors.InsertBehind | keyboard/_keyboard_tests.py:433-446 | a name after the head goes behind it |
| Extractors.Sort | keyboard/_keyboard_tests.py:433-446 | sorting gives an ordered list of the same names |
| Extractors.OrderedDistinct | keyboard/_keyboard_tests.py:441-442 | an ordered list has no duplicates |
| Extractors.OrderedUnique | keyboard/_keyboard_tests.py:433-446 | two ordered lists of the same names are equal |
| Extractors.Clean | keyboard/_keyboard_tests.py:439-442 | a cleaned name has no `+` |
| Extractors.CleanAll | keyboard/_keyboard_tests.py:437-444 | every name cleaned in place |
| Extractors.LacksChar | keyboard/_keyboard_tests.py:437-438 | a string lacking a character of the pattern does not contain the pattern |
| Extractors.ReplaceAllLeading | keyboard/_keyboard_tests.py:439-442 | a pattern at the front is replaced and the rest scanned on |
| Extractors.CleanPlain | keyboard/_keyboard_tests.py:433-434 | a name without blanks and `+` is already clean |
| Extractors.CleanSided | keyboard/_keyboard_tests.py:437-438 | a sided name loses its side |
| Extractors.CleanPlusSign | keyboard/_keyboard_tests.py:439-440 | the `+` key is written `plus` |
| Extractors.JoinPlusSmall | keyboard/_keyboard_tests.py:433-446 | `'+'.join` of two to five names |
| Extractors.JoinTwo | keyboard/_keyboard_tests.py:433-446 | joining two names |
| Extractors.JoinCons | keyboard/_keyboard_tests.py:433-446 | joining a name in front of a list |
| Extractors.HotkeyName | keyboard/_keyboard_tests.py:433-446 | the hotkey name is empty exactly when there is no name or every name cleans to nothing |
| Extractors.NameOfSorted | keyboard/_keyboard_tests.py:433-446 | the joined ordered names are empty exactly when the hotkey name is |
| Extractors.GetHotkeyName | keyboard/_keyboard_tests.py:433-446 | `get_hotkey_name` fails exactly on an empty name |
| Extractors.NormalizeAll | keyboard/_keyboard_tests.py:437-438 | every name normalised in place; fails exactly on an empty name |
| Extractors.HotkeyNameIsOrderedSet | keyboard/_keyboard_tests.py:433-446 | the hotkey name is the one ordered list of the set of cleaned names, joined with `+`: duplicates removed, modifiers first |
| Extractors.NormalizeAllOk | keyboard/_keyboard_tests.py:437-438 | normalising name by name |
| Extractors.HotkeyNameOfCleaned | keyboard/_keyboard_tests.py:433-446 | the hotkey name read off the cleaned names and an ordering of their set |
| Extractors.HotkeyNameSplits | keyboard/_keyboard_tests.py:433-446 | a hotkey name of plain names splits on `+` back into the ordered names (round trip with `parse_hotkey`'s splitting) |
| ExtractorCases.TypedStringsSimple | keyboard/_keyboard_tests.py:418-420 | the simple case types `aA ` and then `a` |
| ExtractorCases.TypedStringsBackspace | keyboard/_keyboard_tests.py:421-425 | `du_a+du_b+du_backspace` types `a`; `du_backspace+du_a+du_b` types `ab` |
| ExtractorCases.TypedStringsShift | keyboard/_keyboard_tests.py:426-428 | the shift case types `AB ` and then `a` |
| ExtractorCases.TypedStringsAll | keyboard/_keyboard_tests.py:429-431 | the combined case types `aAb ` and then `A`: caps lock cancels shift |
| ExtractorCases.HotkeyNameSimple | keyboard/_keyboard_tests.py:433-434 | `get_hotkey_name(['a'])` is `a` |
| ExtractorCases.HotkeyNameModifiers | keyboard/_keyboard_tests.py:435-436 | `['a', 'shift', 'ctrl']` is named `ctrl+shift+a` |
| ExtractorCases.HotkeyNameNormalize | keyboard/_keyboard_tests.py:437-438 | `['SHIFT', 'left ctrl']` is named `ctrl+shift` |
| ExtractorCases.HotkeyNamePlus | keyboard/_keyboard_tests.py:439-442 | `['+']` and `['+', 'plus']` are both named `plus` |
| ExtractorCases.HotkeyNameFull | keyboard/_keyboard_tests.py:443-444 | the full case is named `ctrl+alt+shift+windows+plus` |
| ExtractorCases.HotkeyNameMultiple | keyboard/_keyboard_tests.py:445-446 | `['ctrl', 'b', '!', 'a']` is named `ctrl+!+a+b` |
| ExtractorCases.HotkeyNamePressed | keyboard/_keyboard_tests.py:447-449 | the names pressed in that test, in scan-code order, give `ctrl+a+b` |
| SendCases.Shortcuts | keyboard/_keyboard_tests.py:66-88 | the shortcut events carry the table code and name of `a`, `b`, `c`, `left ctrl`, `left shift` |
| SendCases.DoTransparent | keyboard/_keyboard_tests.py:101-111 | `do` on a session that holds nothing back returns the events and tracks them |
| SendCases.SendStep | keyboard/_keyboard_tests.py:202-229 | a one-step `send` emits the chosen codes' presses in order and their releases in reverse order |
| SendCases.IsPressedStep | keyboard/_keyboard_tests.py:191-196 | a one-step hotkey is pressed when each key has a code down |
| SendCases.IsPressedNone | keyboard/_keyboard_tests.py:173-174 | nothing is pressed at first |
| SendCases.IsPressedAfterPress | keyboard/_keyboard_tests.py:175-186 | after `d_a`: `a` and 1 are pressed, 2 and -1 are not |
| SendCases.IsPressedAfterRelease | keyboard/_keyboard_tests.py:187-190 | after `d_a+u_a+d_b`: `a` is not pressed, `b` is |
| SendCases.IsPressedHotkey | keyboard/_keyboard_tests.py:191-193 | `shift+a` is pressed after `d_shift+d_a` |
| SendCases.IsPressedHotkeyReleased | keyboard/_keyboard_tests.py:194-196 | and not once `a` is released |
| SendCases.IsPressedMultiStep | keyboard/_keyboard_tests.py:197-200 | `is_pressed('a, b')` is an error |
| SendCases.SendSingle | keyboard/_keyboard_tests.py:202-213 | `send('a')` emits `d_a+u_a`, `d_a`, `u_a` or nothing, as pressing and releasing are asked |
| SendCases.PressReleaseSingle | keyboard/_keyboard_tests.py:214-222 | `Client.Press`, `Client.Release`, `Client.PressAndRelease`: `press`, `release` and `press_and_release` of `a` |
| SendCases.SendCtrlA | keyboard/_keyboard_tests.py:224-226 | `send('ctrl+a')` emits `d_ctrl+d_a+u_a+u_ctrl` |
| SendCases.SendCtrlShiftARelease | keyboard/_keyboard_tests.py:227-229 | releasing `ctrl+shift+a` emits `u_a+u_shift+u_ctrl` |
| SendCases.RestoreEventsOf | keyboard/_keyboard_tests.py:358-361 | the restoring events once the ascending code lists are known |
| SendCases.RestoreOnto | keyboard/_keyboard_tests.py:358-361 | `restore_state` on a transparent session emits those events |
| SendCases.StashScenario | keyboard/_keyboard_tests.py:354-357 | after `d_a+d_shift` the stash is 1 and 5, released in that order |
| SendCases.RestoreScenario | keyboard/_keyboard_tests.py:358-361 | from `b` down, `restore_state([1, 5])` emits `u_b+d_a+d_shift` |
| SendCases.RestoreModifiersScenario | keyboard/_keyboard_tests.py:362-365 | from `b` down, `restore_modifiers([1, 5])` emits `u_b+d_shift` |
| SendCases.StashFresh | keyboard/_keyboard_tests.py:367-369 | stashing a fresh session does nothing |
| SendCases.RestoreNothing | keyboard/_keyboard_tests.py:367-369 | with nothing down, restoring no modifiers does nothing |
| SendCases.WritePlain | keyboard/_keyboard_tests.py:367-369 | a plain letter is typed as its code pressed and released |
| SendCases.SendCode | keyboard/_keyboard_tests.py:373-375 | pressing or releasing a one-key hotkey sends its first code |
| SendCases.TapCode | keyboard/_keyboard_tests.py:367-369 | a code pressed and released appends exactly those two events and leaves it up |
| SendCases.WriteShifted | keyboard/_keyboard_tests.py:373-375 | an upper-case letter is typed with shift pressed around it |
| SendCases.WriteSimple | keyboard/_keyboard_tests.py:367-369 | `write('a')` emits `d_a+u_a` |
| SendCases.WriteMultiple | keyboard/_keyboard_tests.py:384-387 | `write('ab')` emits `d_a+u_a+d_b+u_b` |
| SendCases.WriteModifiers | keyboard/_keyboard_tests.py:373-375 | `write('Ab')` emits `d_shift+d_a+u_a+u_shift+d_b+u_b` |
| SendCases.ShiftedThenPlain | keyboard/_keyboard_tests.py:373-375 | a shifted then a plain letter leave nothing down |
| SendCases.WriteStashRestore | keyboard/_keyboard_tests.py:380-383 | with shift held, `write('a')` emits `u_shift+d_a+u_a+d_shift` |
| SendCases.StashAround | keyboard/_keyboard_tests.py:380-383 | with one code held, `stash_state` releases it |
| SendCases.RestoreAround | keyboard/_keyboard_tests.py:380-383 | with nothing down, restoring one modifier presses it |
| SendCases.WriteUnicodeExplicit | keyboard/_keyboard_tests.py:389-391 | `write('ab', exact=True)` types both letters as unicode |
| SendCases.AccentedUnknown | keyboard/_keyboard_tests.py:392-394 | a character the table lacks is typed as unicode |
| SendCases.WriteUnicodeFallback | keyboard/_keyboard_tests.py:392-394 | `write('áb')` types `á` as unicode and `b` with its key |
| SendCases.UnicodeFallback | keyboard/_keyboard_tests.py:392-394 | a character without table entries is typed as unicode |
| SendCases.RecordScenario | keyboard/_keyboard_tests.py:396-399 | the recording is the events pumped |
| SendCases.RecordAcrossUnhookAll | keyboard/_keyboard_tests.py:396-399 | start recording, clear every hook, pump `a`: a second `start_recording` is refused and `stop_recording` returns nothing |
| SendCases.StopRecordingFresh | keyboard/_keyboard_tests.py:400-402 | `stop_recording` with nothing recorded is an error |
| SendCases.PlayPressRelease | keyboard/_keyboard_tests.py:404-406 | replaying a press and release of a code sends exactly that |
| SendCases.PlayNoDelay | keyboard/_keyboard_tests.py:404-406 | `play(d_a+u_a)` emits `d_a+u_a` |
| SendCases.PlayStash | keyboard/_keyboard_tests.py:407-410 | with ctrl held, `play(d_a+u_a)` emits `u_ctrl+d_a+u_a+d_ctrl` |
| SendCases.PressedAfterCtrlAB | keyboard/_keyboard_tests.py:447-449 | after `du_c+d_ctrl+d_a+d_b` exactly `a`, `b` and `left ctrl` are down |
| SendCases.HotkeyNameFromPressed | keyboard/_keyboard_tests.py:447-449 | `get_hotkey_name()` then is `ctrl+a+b` |
| SendCases.PressedNamesIn | keyboard/_keyboard_tests.py:447-449 | the pressed names once the ascending codes are known |
| SendCases.SortedKeys | keyboard/_keyboard_tests.py:447-449 | the ascending scan codes of a pressed state |
| HookCases.OneHook | keyboard/_keyboard_tests.py:241-284 | one hook and one event: forwarded unless the hook suppresses, is offered it and refuses it |
| HookCases.NoHooks | keyboard/_keyboard_tests.py:249-251 | with no hooks every event passes and nothing is called |
| HookCases.DoRulesFree | keyboard/_keyboard_tests.py:101-111 | `do` with no rules: the hooks filter the events and record the calls |
| HookCases.UnhookOnly | keyboard/_keyboard_tests.py:249 | removing the only hook by handle leaves none |
| HookCases.UnhookKeyOnly | keyboard/_keyboard_tests.py:300 | removing the only hook by key leaves none |
| HookCases.OneHookPhase | keyboard/_keyboard_tests.py:289-317 | one `do` with one hook: the hook alone filters, and the calls grow accordingly |
| HookCases.HookNonblocking | keyboard/_keyboard_tests.py:241-251 | the counter reaches 2, every event passes, and it stays at 2 once unhooked |
| HookCases.HookNonblockingAgain | keyboard/_keyboard_tests.py:252-257 | hooked again it reaches 4 and stays there after `unhook_all` |
| HookCases.HookBlocking | keyboard/_keyboard_tests.py:258-269 | a suppressing hook allowing only `b` lets `d_b` through of `d_a+d_b`, and everything passes once unhooked |
| HookCases.HookBlockingAgain | keyboard/_keyboard_tests.py:270-275 | hooked again only `d_b` passes, the counter reaches 4 and stays there |
| HookCases.OnPressNonblocking | keyboard/_keyboard_tests.py:276-278 | `on_press` sees only the Down of `a` |
| HookCases.OnPressBlocking | keyboard/_keyboard_tests.py:279-281 | a suppressing `on_press` allowing code 1 drops the Down of code -1 |
| HookCases.OnReleaseNonblocking | keyboard/_keyboard_tests.py:282-284 | `on_release` sees only the Up of `a` |
| HookCases.HookKeyInvalid | keyboard/_keyboard_tests.py:286-288 | `hook_key('invalid')` is an error |
| HookCases.HookUpperA | keyboard/_keyboard_tests.py:293 | `hook_key('A')` is one hook on codes 1 and -1 |
| HookCases.HookKeyNonblocking | keyboard/_keyboard_tests.py:289-295 | the hook on `A` is called for `d_a` |
| HookCases.HookKeyNonblockingRelease | keyboard/_keyboard_tests.py:296-297 | of `u_a+d_b` only `u_a` reaches it: the counter is 2 |
| HookCases.HookKeyNonblockingAlternate | keyboard/_keyboard_tests.py:298-299 | the Down of code -1 is an `A` too: the counter is 3 |
| HookCases.HookKeyNonblockingRemoved | keyboard/_keyboard_tests.py:300-302 | after `unhook_key('A')` the counter stays at 3 |
| HookCases.HookKeyBlocking | keyboard/_keyboard_tests.py:303-310 | a suppressing hook on `A` allowing code 1 forwards `d_a` |
| HookCases.HookKeyBlockingRelease | keyboard/_keyboard_tests.py:311-312 | `u_a+d_b` both pass; only `u_a` is asked about |
| HookCases.HookKeyBlockingAlternate | keyboard/_keyboard_tests.py:313-314 | the Down of code -1 is refused and dropped |
| HookCases.RefusedByBlockingHook | keyboard/_keyboard_tests.py:313-314 | the hook is called for the Down of code -1 and refuses it |
| HookCases.HookKeyBlockingRemoved | keyboard/_keyboard_tests.py:315-317 | after `unhook_key('A')` that Down passes and nothing is called |
| HookCases.OnPressKeyNonblocking | keyboard/_keyboard_tests.py:318-319 | `on_press_key('A')` is one Downs-only hook on codes 1 and -1 |
| HookCases.OnPressKeyNonblockingDo | keyboard/_keyboard_tests.py:318-320 | of `d_a+u_a+d_b+u_b` everything passes and the callback sees only `d_a` |
| HookCases.DownsOnlyPair | keyboard/_keyboard_tests.py:318-320 | a Downs-only hook over a press and release: both pass, the Down is seen |
| HookCases.OnPressKeyBlocking | keyboard/_keyboard_tests.py:321-323 | a suppressing `on_press_key('A')` allowing code 1 drops the Down of code -1 |
| HookCases.OnReleaseKeyNonblocking | keyboard/_keyboard_tests.py:324-326 | the callback on `a` sees only its Up |
| HookCases.UpsOnlyPair | keyboard/_keyboard_tests.py:324-326 | an Ups-only hook over a press and release: both pass, the Up is seen |
| RuleCases.UnblockedNone | keyboard/_keyboard_tests.py:332-333 | with no block every event passes |
| RuleCases.OneBlock | keyboard/_keyboard_tests.py:328-337 | one block covers exactly its own codes |
| RuleCases.DoBlocksOnly | keyboard/_keyboard_tests.py:328-337 | `do` with only blocks forwards the unblocked events |
| RuleCases.BlockLetterA | keyboard/_keyboard_tests.py:329 | `block_key('a')` is one block on code 1 |
| RuleCases.BlockUpperA | keyboard/_keyboard_tests.py:335 | `block_key('A')` is one block on codes 1 and -1 |
| RuleCases.BlockKeyScenario | keyboard/_keyboard_tests.py:328-331 | `d_a` is dropped of `d_a+d_b`, and the Down of code -1 passes |
| RuleCases.UnblockKeyScenario | keyboard/_keyboard_tests.py:332-333 | after `unblock_key('a')` `d_a+d_b` pass |
| RuleCases.BlockKeyAmbiguous | keyboard/_keyboard_tests.py:334-337 | `block_key('A')` drops `d_a` and the Down of code -1 |
| RuleCases.RemapsOnlyDown | keyboard/_keyboard_tests.py:339-341 | the Down of a remapped key on a remap-only session |
| RuleCases.RemapsOnlyUp | keyboard/_keyboard_tests.py:339-341 | the Up of a held remapped key on a remap-only session |
| RuleCases.RemapsOnlyPlain | keyboard/_keyboard_tests.py:339-341 | an event no remap covers passes |
| RuleCases.ChosenTargets | keyboard/_keyboard_tests.py:339-350 | the codes chosen for `b` and for `shift+b` |
| RuleCases.RemapFresh | keyboard/_keyboard_tests.py:339-340 | one remap rule on a fresh session |
| RuleCases.OneRemap | keyboard/_keyboard_tests.py:339-352 | the single rule covers its codes and nothing else |
| RuleCases.RemapAround | keyboard/_keyboard_tests.py:339-352 | the target is pressed in place of the source's Down and released in place of its Up |
| RuleCases.DoNoRules | keyboard/_keyboard_tests.py:342-343 | with no rule and no key held everything passes |
| RuleCases.RemapAToB | keyboard/_keyboard_tests.py:340 | `remap_key('a', 'b')` on a fresh session |
| RuleCases.RemapKeySimple | keyboard/_keyboard_tests.py:339-343 | `d_a+d_c+u_a` comes out as `d_b+d_c+u_b`, and as itself after `unremap_key('a')` |
| RuleCases.UnremapOnly | keyboard/_keyboard_tests.py:342-343 | removing the only remap lets everything pass |
| RuleCases.RemapAToShiftB | keyboard/_keyboard_tests.py:349 | `remap_key('a', 'shift+b')` on a fresh session |
| RuleCases.RemapKeyMultiple | keyboard/_keyboard_tests.py:348-352 | `d_a+d_c+u_a` comes out as `d_shift+d_b+d_c+u_b+u_shift`, and as itself after `unremap_key('a')` |
| RuleCases.RemapUpperAToB | keyboard/_keyboard_tests.py:345 | `remap_key('A', 'b')` covers both codes of `A` |
| RuleCases.RemapKeyAmbiguous | keyboard/_keyboard_tests.py:344-347 | `d_a+d_b` comes out as `d_b+d_b`, and the Down of code -1 as `d_b` |
| HotkeyCases.ComboModifierDown | keyboard/_keyboard_tests.py:476-478 | the first Down of ctrl or shift is held back |
| HotkeyCases.ComboTrigger | keyboard/_keyboard_tests.py:476-478 | `a` with both modifiers down fires; only the callback's events come out |
| HotkeyCases.ComboModifierUp | keyboard/_keyboard_tests.py:479-481 | the Up of ctrl or shift passes, after its held-back Down |
| HotkeyCases.HeldBackSorted | keyboard/_keyboard_tests.py:482-484 | the held-back codes in ascending order are shift's, then ctrl's |
| HotkeyCases.ComboOtherKey | keyboard/_keyboard_tests.py:482-487 | any other key gives back what is held back, in ascending code order, ahead of itself |
| HotkeyCases.HookParsed | keyboard/_keyboard_tests.py:473-478 | a one-step hotkey whose keys before the last are modifiers is one fresh automaton |
| HotkeyCases.HookCombo | keyboard/_keyboard_tests.py:477 | a hotkey reading as `ctrl+shift+a` is that automaton |
| HotkeyCases.HookCtrlShiftA | keyboard/_keyboard_tests.py:477 | `_hook_hotkey_part('ctrl+shift+a')` on a fresh session |
| HotkeyCases.HookSingleA | keyboard/_keyboard_tests.py:474 | `_hook_hotkey_part('a')`: no modifiers |
| HotkeyCases.HotkeyPartFailMultistep | keyboard/_keyboard_tests.py:498-500 | `a, b` is refused as unsupported |
| HotkeyCases.HotkeyPartFailCombination | keyboard/_keyboard_tests.py:501-503 | `a+b` is refused as unsupported |
| HotkeyCases.CtrlThenShift | keyboard/_keyboard_tests.py:476-478 | ctrl then shift down: both held back, nothing out |
| HotkeyCases.ShiftThenCtrl | keyboard/_keyboard_tests.py:491-493 | shift then ctrl down: the same |
| HotkeyCases.TriggerLast | keyboard/_keyboard_tests.py:476-478 | with both held back, `a` fires and nothing else comes out |
| HotkeyCases.ShiftUpThenTrigger | keyboard/_keyboard_tests.py:479-481 | shift up, then `a`: shift's Down before its Up, ctrl's Down before `a` |
| HotkeyCases.UnrelatedModifierOutput | keyboard/_keyboard_tests.py:479-481 | the output of that whole sequence |
| HotkeyCases.TapWhileHeld | keyboard/_keyboard_tests.py:482-484 | a tap of `b` gives back shift's and ctrl's Downs ahead of it |
| HotkeyCases.UnrelatedKeyFailsOutput | keyboard/_keyboard_tests.py:482-484 | the output of that whole sequence |
| HotkeyCases.ReleasePassedOn | keyboard/_keyboard_tests.py:488-490 | once given back, releasing ctrl and shift passes both releases |
| HotkeyCases.TriggerPassedOn | keyboard/_keyboard_tests.py:485-490 | once given back, ctrl and shift still make `a` fire |
| HotkeyCases.UnrelatedKeyOutput | keyboard/_keyboard_tests.py:485-490 | the output of the unrelated-key sequences, with and without the releases |
| HotkeyCases.DoOnlyPart | keyboard/_keyboard_tests.py:473-493 | what `do` gives back is what the automaton lets through |
| HotkeyCases.HotkeyPartSingle | keyboard/_keyboard_tests.py:473-475 | `d_a` fires and only `triggered` comes out |
| HotkeyCases.HotkeyPartWithModifiers | keyboard/_keyboard_tests.py:476-478 | `d_ctrl+d_shift+d_a` gives only `triggered` |
| HotkeyCases.HotkeyPartOutOfOrder | keyboard/_keyboard_tests.py:491-493 | `d_shift+d_ctrl+d_a` gives only `triggered` |
| HotkeyCases.HotkeyPartUnrelatedModifier | keyboard/_keyboard_tests.py:479-481 | `d_ctrl+d_shift+u_shift+d_a` gives `d_shift+u_shift+d_ctrl+d_a` |
| HotkeyCases.HotkeyPartUnrelatedKeyFails | keyboard/_keyboard_tests.py:482-484 | `d_ctrl+d_shift+du_b` gives `d_shift+d_ctrl+du_b` |
| HotkeyCases.HotkeyPartUnrelatedKey | keyboard/_keyboard_tests.py:485-487 | a later `d_a` still fires: `d_shift+d_ctrl+du_b+triggered` |
| HotkeyCases.HotkeyPartRelease | keyboard/_keyboard_tests.py:488-490 | and the releases then pass: `...+triggered+u_ctrl+u_shift` |
| Machine.Keyboard.constructor | keyboard/_keyboard_tests.py:93-99 | the fields start as a fresh session |
| Machine.Keyboard.Replay | keyboard/_keyboard_tests.py:339-341 | events delivered as they are: the new state is the session replay of the old one |
| Machine.Keyboard.RunParts | keyboard/_keyboard_tests.py:473-493 | the loop over the automata computes the automaton stage of the old state |
| Machine.Keyboard.RunHooks | keyboard/_keyboard_tests.py:241-284 | the hook stage of the old state, and its verdict |
| Machine.Keyboard.Dispatch | keyboard/_keyboard_tests.py:105-106 | `direct_callback`: the new state and verdict are those of `Listener.Dispatch` |
| Machine.Keyboard.Deliver | keyboard/_keyboard_tests.py:54-56 | `send_instant_event`: one session step |
| Machine.Keyboard.Pump | keyboard/_keyboard_tests.py:101-111 | the harness's `do` loop returns and clears what `Listener.Do` says |
| Machine.Keyboard.BlockKey | keyboard/_keyboard_tests.py:328-329 | `block_key` in place, the same success, error and new state as `Client.BlockKey` |
| Machine.Keyboard.UnblockKey | keyboard/_keyboard_tests.py:332 | `unblock_key` in place, as `Client.UnblockKey` |
| Machine.Keyboard.RemapKey | keyboard/_keyboard_tests.py:339-340 | `remap_key` in place, as `Client.RemapKey` |
| Machine.Keyboard.UnremapKey | keyboard/_keyboard_tests.py:342 | `unremap_key` in place, as `Client.UnremapKey` |
| Machine.Keyboard.HookHotkeyPart | keyboard/_keyboard_tests.py:473-503 | `_hook_hotkey_part` in place, as `Client.HookHotkeyPart` |
| Machine.Keyboard.UnhookAll | keyboard/_keyboard_tests.py:93-94 | `unhook_all` in place, as `Client.UnhookAll` |

## Left out

- The library's own source (`keyboard/__init__.py`, `_listener`, `_keyboard_event` and the OS backends) is not part of this model. Its behaviour is reconstructed from what the tests assert and from the library's documented design.
- `call_later` (lines 231-239), `read_hotkey` and `wait` (lines 451-471), and the worker `queue.join()` in `do` (line 111) depend on threads and wall-clock time.
- Delays in `write` and `play`: `Client.Write` and `Client.Play` take no delay and no speed factor. The redefined `test_write_multiple` (lines 384-388) and `test_play_delay` (lines 411-416) are modelled only in their event expectations, which equal those of the undelayed tests; their timing assertions are left out.
- The JSON round trip of an event (lines 113-116) depends on the `json` library and its unicode escaping.
- Callbacks are not run as code. A hook callback is a verdict function, and each call is logged as a `Call`. The tests' counters and `assertEqual` checks inside callbacks are stated as properties of that log. A hotkey callback is the list of events it injects.
- Event timestamps are not modelled. An event is its kind, its scan code and its optional name.
- Events injected while an event is being dispatched go straight to the output and update the pressed state, without passing through rules or hooks again. These are a remap target's presses and releases, a hotkey callback's events, and the modifier Downs an automaton gives back. This keeps dispatch finite.
- `tearDown` (lines 93-99) calls `unhook_all` and then itself clears the input and output lists, sets `_recording` to `None`, clears the pressed events and re-initialises the listener (lines 95-99). The model starts each scenario from `Listener.Fresh`, the state those lines leave.
- Client.StopRecording: after `unhook_all` has removed a running recording's hook, the model returns the events that recording captured before the clear. The tests never call `stop_recording` in that state.
- Keys.Lower / Extractors.Upper / Keys.IsSpace: these cover ASCII only. Python's `str.lower`, `str.upper` and `\s` are Unicode-aware: `'ß'.upper()` is `'SS'`, `'ä'.upper()` is `'Ä'`, and `'\u00a0'` and `'\x1c'` count as whitespace. The model leaves every non-ASCII character unchanged and treats it as a non-space. Every name and text in the tests is ASCII apart from `á`, which is only typed as unicode and never case-mapped.
- The unreachable `OldTests` class after `exit()` (lines 518-785), the commented-out tests (lines 376-379, 494-496), and `test_add_hotkey_single` (lines 505-513), which returns before asserting anything.
- Listener.RunParts: its own contract only states that the automata are kept one for one. Its meaning is stated by `Machine.Keyboard.RunParts` and by the `DispatchFacts` automaton lemmas.
- Keys.ParseHotkey: its own contract only states that a parse has a step. What it parses to is stated by `KeyFacts.ParseFormatted` and the `KeyCases` parse lemmas.
