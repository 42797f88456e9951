/** The get_typed_strings and get_hotkey_name expectations of the test suite,
    over the test table's event shortcuts. */
module ExtractorCases {
  import opened Events
  import opened Keys
  import opened Extractors
  import KeyCases

  // ---------------------------------------------------------------------
  // What each name of the test events does to typing.

  lemma CharRole(n: string, allowBackspace: bool)
    requires |n| == 1
    ensures RoleOf(n, allowBackspace) == Printable(n)
  {
    ShortDoesNotContain(n, "shift");
  }

  lemma LeftShiftRole(n: string, allowBackspace: bool)
    requires n == "left shift"
    ensures RoleOf(n, allowBackspace) == ShiftKey
  {
    assert n == "left " + "shift";
    ContainsSuffix("left ", "shift");
  }

  lemma SpaceRole(n: string, allowBackspace: bool)
    requires n == "space"
    ensures RoleOf(n, allowBackspace) == Printable(" ")
  {
    NoShift(n);
  }

  lemma BackspaceRole(n: string)
    requires n == "backspace"
    ensures RoleOf(n, true) == BackspaceKey
  {
    NoShift(n);
  }

  lemma CapsLockRole(n: string, allowBackspace: bool)
    requires n == "caps lock"
    ensures RoleOf(n, allowBackspace) == CapsKey
  {
    NoShift(n);
  }

  lemma LeftCtrlRole(n: string, allowBackspace: bool)
    requires n == "left ctrl"
    ensures RoleOf(n, allowBackspace) == Breaking
  {
    NoShift(n);
  }

  // ---------------------------------------------------------------------
  // Typing steps shared by the get_typed_strings cases.

  /** `du_a + du_b` typed from `t`, when neither shift nor caps lock is in effect. */
  lemma TypeAB(t: Typist, events: seq<KeyEvent>, i: nat)
    requires t.shift == t.caps && TapAt(events, i, "a") && TapAt(events, i + 2, "b")
    ensures TypeAt(t, events, i, true) == TypeAt(t.(buffer := t.buffer + "ab"), events, i + 4, true)
  {
    CharRole("a", true);
    CharRole("b", true);
    TapPrintable(t, events, i, true, "a", "a");
    var u := t.(buffer := t.buffer + "a");
    assert t.(buffer := t.buffer + Shown(t, "a")) == u;
    TapPrintable(u, events, i + 2, true, "b", "b");
    assert u.(buffer := u.buffer + Shown(u, "b")) == t.(buffer := t.buffer + "ab");
  }

  /** `du_backspace` typed from `t`. */
  lemma TypeBackspace(t: Typist, events: seq<KeyEvent>, i: nat)
    requires TapAt(events, i, "backspace")
    ensures TypeAt(t, events, i, true) == TypeAt(t.(buffer := DropLast(t.buffer)), events, i + 2, true)
  {
    BackspaceRole("backspace");
    TapBackspace(t, events, i, true, "backspace");
  }

  /** `du_space + du_ctrl + du_a` typed from `t`: a blank ends the string,
      then `a` starts the next one. */
  lemma TypeSpaceCtrlA(t: Typist, events: seq<KeyEvent>, i: nat, a: string)
    requires !t.shift && TapAt(events, i, "space") && TapAt(events, i + 2, "left ctrl") && TapAt(events, i + 4, "a")
    requires a == if t.caps then "A" else "a"
    ensures TypeAt(t, events, i, true) == TypeAt(t.(buffer := a, done := t.done + [t.buffer + " "]), events, i + 6, true)
  {
    SpaceRole("space", true);
    LeftCtrlRole("left ctrl", true);
    CharRole("a", true);
    TapPrintable(t, events, i, true, "space", " ");
    var u := t.(buffer := t.buffer + " ");
    assert Upper(" ") == " ";
    assert t.(buffer := t.buffer + Shown(t, " ")) == u;
    TapBreaking(u, events, i + 2, true, "left ctrl");
    var v := u.(done := u.done + [u.buffer], buffer := "");
    TapPrintable(v, events, i + 4, true, "a", "a");
    assert Upper("a") == "A";
    assert v.(buffer := v.buffer + Shown(v, "a")) == t.(buffer := a, done := t.done + [t.buffer + " "]);
  }

  /** Pressing or releasing the left shift key from `t`. */
  lemma TypeShift(t: Typist, events: seq<KeyEvent>, i: nat, kind: EventType)
    requires i < |events| && events[i] == KeyEvent(kind, 5, Some("left shift"))
    ensures TypeAt(t, events, i, true) == TypeAt(t.(shift := kind == Down), events, i + 1, true)
  {
    LeftShiftRole("left shift", true);
    ShiftEvent(t, events, i, true);
  }

  /** A tap of `a` or `b` typed with exactly one of shift and caps lock on. */
  lemma TypeUpper(t: Typist, events: seq<KeyEvent>, i: nat, name: string, upper: string)
    requires t.shift != t.caps && TapAt(events, i, name)
    requires (name == "a" && upper == "A") || (name == "b" && upper == "B")
    ensures TypeAt(t, events, i, true) == TypeAt(t.(buffer := t.buffer + upper), events, i + 2, true)
  {
    CharRole(name, true);
    TapPrintable(t, events, i, true, name, name);
    assert Upper(name) == upper;
  }

  /** A tap of caps lock typed from `t`. */
  lemma TypeCapsLock(t: Typist, events: seq<KeyEvent>, i: nat)
    requires TapAt(events, i, "caps lock")
    ensures TypeAt(t, events, i, true) == TypeAt(t.(caps := !t.caps), events, i + 2, true)
  {
    CapsLockRole("caps lock", true);
    TapCaps(t, events, i, true, "caps lock");
  }

  // ---------------------------------------------------------------------
  // The get_typed_strings cases: first each typing as a chain of steps over
  // the positions of the list, then the list itself.

  /** `du_a + du_b + du_backspace` from an empty typist: `a` is left. */
  lemma TypedABBackspace(events: seq<KeyEvent>)
    requires TapAt(events, 0, "a") && TapAt(events, 2, "b") && TapAt(events, 4, "backspace")
    ensures TypeAt(Typist(false, false, "", []), events, 0, true) == TypeAt(Typist(false, false, "a", []), events, 6, true)
  {
    var t0 := Typist(false, false, "", []);
    TypeAB(t0, events, 0);
    var t1 := Typist(false, false, "ab", []);
    assert t0.(buffer := t0.buffer + "ab") == t1;
    TypeBackspace(t1, events, 4);
    assert t1.(buffer := DropLast(t1.buffer)) == Typist(false, false, "a", []);
  }

  /** `d_shift + du_a` after `a`: shift is held and `aA` typed. */
  lemma TypedShiftedA(events: seq<KeyEvent>)
    requires 6 < |events| && events[6] == KeyEvent(Down, 5, Some("left shift")) && TapAt(events, 7, "a")
    ensures TypeAt(Typist(false, false, "a", []), events, 6, true) == TypeAt(Typist(true, false, "aA", []), events, 9, true)
  {
    var t2 := Typist(false, false, "a", []);
    TypeShift(t2, events, 6, Down);
    var t3 := Typist(true, false, "a", []);
    assert t2.(shift := Down == Down) == t3;
    TypeUpper(t3, events, 7, "a", "A");
    assert t3.(buffer := t3.buffer + "A") == Typist(true, false, "aA", []);
  }

  /** The simple case up to the release of shift. */
  lemma SimpleChainFront(events: seq<KeyEvent>)
    requires |events| == 16 && TapAt(events, 0, "a") && TapAt(events, 2, "b") && TapAt(events, 4, "backspace")
    requires events[6] == KeyEvent(Down, 5, Some("left shift")) && TapAt(events, 7, "a")
    requires events[9] == KeyEvent(Up, 5, Some("left shift"))
    ensures TypeAt(Typist(false, false, "", []), events, 0, true) == TypeAt(Typist(false, false, "aA", []), events, 10, true)
  {
    TypedABBackspace(events);
    TypedShiftedA(events);
    var t4 := Typist(true, false, "aA", []);
    TypeShift(t4, events, 9, Up);
    assert t4.(shift := Up == Down) == Typist(false, false, "aA", []);
  }

  /** The simple case from the blank on. */
  lemma SimpleChainBack(events: seq<KeyEvent>)
    requires |events| == 16 && TapAt(events, 10, "space") && TapAt(events, 12, "left ctrl") && TapAt(events, 14, "a")
    ensures TypeAt(Typist(false, false, "aA", []), events, 10, true) == TypeAt(Typist(false, false, "a", ["aA "]), events, 16, true)
  {
    var t5 := Typist(false, false, "aA", []);
    TypeSpaceCtrlA(t5, events, 10, "a");
    assert t5.buffer + " " == "aA ";
    assert t5.done + ["aA "] == ["aA "];
    assert t5.(buffer := "a", done := t5.done + [t5.buffer + " "]) == Typist(false, false, "a", ["aA "]);
  }

  /** `du_a + du_b + du_backspace + d_shift + du_a + u_shift + du_space +
      du_ctrl + du_a` types `aA ` and then `a`. */
  lemma TypedStringsSimple(events: seq<KeyEvent>)
    requires events == [
      KeyEvent(Down, 1, Some("a")), KeyEvent(Up, 1, Some("a")),
      KeyEvent(Down, 2, Some("b")), KeyEvent(Up, 2, Some("b")),
      KeyEvent(Down, 8, Some("backspace")), KeyEvent(Up, 8, Some("backspace")),
      KeyEvent(Down, 5, Some("left shift")),
      KeyEvent(Down, 1, Some("a")), KeyEvent(Up, 1, Some("a")),
      KeyEvent(Up, 5, Some("left shift")),
      KeyEvent(Down, 0, Some("space")), KeyEvent(Up, 0, Some("space")),
      KeyEvent(Down, 7, Some("left ctrl")), KeyEvent(Up, 7, Some("left ctrl")),
      KeyEvent(Down, 1, Some("a")), KeyEvent(Up, 1, Some("a"))]
    ensures GetTypedStrings(events, true) == Ok(["aA ", "a"])
  {
    SimpleChainFront(events);
    SimpleChainBack(events);
    var t := Typist(false, false, "a", ["aA "]);
    TypedStringsAt(events, true, t);
    assert t.done + [t.buffer] == ["aA ", "a"];
  }

  /** `du_a + du_b + du_backspace`, position by position. */
  lemma BackspaceLastChain(events: seq<KeyEvent>)
    requires |events| == 6 && TapAt(events, 0, "a") && TapAt(events, 2, "b") && TapAt(events, 4, "backspace")
    ensures TypeAt(Typist(false, false, "", []), events, 0, true) == TypeAt(Typist(false, false, "a", []), events, 6, true)
  {
    var t0 := Typist(false, false, "", []);
    TypeAB(t0, events, 0);
    var t1 := Typist(false, false, "ab", []);
    assert t0.(buffer := t0.buffer + "ab") == t1;
    TypeBackspace(t1, events, 4);
    assert t1.(buffer := DropLast(t1.buffer)) == Typist(false, false, "a", []);
  }

  /** `du_backspace + du_a + du_b`, position by position. */
  lemma BackspaceFirstChain(events: seq<KeyEvent>)
    requires |events| == 6 && TapAt(events, 0, "backspace") && TapAt(events, 2, "a") && TapAt(events, 4, "b")
    ensures TypeAt(Typist(false, false, "", []), events, 0, true) == TypeAt(Typist(false, false, "ab", []), events, 6, true)
  {
    var t0 := Typist(false, false, "", []);
    TypeBackspace(t0, events, 0);
    assert DropLast(t0.buffer) == "";
    assert t0.(buffer := DropLast(t0.buffer)) == t0;
    TypeAB(t0, events, 2);
    assert t0.(buffer := t0.buffer + "ab") == Typist(false, false, "ab", []);
  }

  /** `du_a + du_b + du_backspace` types `a`; `du_backspace + du_a + du_b`
      types `ab`, the backspace erasing nothing. */
  lemma TypedStringsBackspace(events: seq<KeyEvent>, others: seq<KeyEvent>)
    requires events == [
      KeyEvent(Down, 1, Some("a")), KeyEvent(Up, 1, Some("a")),
      KeyEvent(Down, 2, Some("b")), KeyEvent(Up, 2, Some("b")),
      KeyEvent(Down, 8, Some("backspace")), KeyEvent(Up, 8, Some("backspace"))]
    requires others == [
      KeyEvent(Down, 8, Some("backspace")), KeyEvent(Up, 8, Some("backspace")),
      KeyEvent(Down, 1, Some("a")), KeyEvent(Up, 1, Some("a")),
      KeyEvent(Down, 2, Some("b")), KeyEvent(Up, 2, Some("b"))]
    ensures GetTypedStrings(events, true) == Ok(["a"])
    ensures GetTypedStrings(others, true) == Ok(["ab"])
  {
    BackspaceLastChain(events);
    BackspaceFirstChain(others);
    var t := Typist(false, false, "a", []);
    TypedStringsAt(events, true, t);
    assert t.done + [t.buffer] == ["a"];
    var u := Typist(false, false, "ab", []);
    TypedStringsAt(others, true, u);
    assert u.done + [u.buffer] == ["ab"];
  }

  /** `d_shift + du_a + du_b + u_shift` from an empty typist: `AB`. */
  lemma TypedShiftedAB(events: seq<KeyEvent>)
    requires 5 < |events| && events[0] == KeyEvent(Down, 5, Some("left shift"))
    requires TapAt(events, 1, "a") && TapAt(events, 3, "b") && events[5] == KeyEvent(Up, 5, Some("left shift"))
    ensures TypeAt(Typist(false, false, "", []), events, 0, true) == TypeAt(Typist(false, false, "AB", []), events, 6, true)
  {
    var t0 := Typist(false, false, "", []);
    TypeShift(t0, events, 0, Down);
    var t1 := Typist(true, false, "", []);
    assert t0.(shift := Down == Down) == t1;
    TypeUpper(t1, events, 1, "a", "A");
    var t2 := Typist(true, false, "A", []);
    assert t1.(buffer := t1.buffer + "A") == t2;
    TypeUpper(t2, events, 3, "b", "B");
    var t3 := Typist(true, false, "AB", []);
    assert t2.(buffer := t2.buffer + "B") == t3;
    TypeShift(t3, events, 5, Up);
    assert t3.(shift := Up == Down) == Typist(false, false, "AB", []);
  }

  lemma ShiftChain(events: seq<KeyEvent>)
    requires |events| == 12 && events[0] == KeyEvent(Down, 5, Some("left shift"))
    requires TapAt(events, 1, "a") && TapAt(events, 3, "b") && events[5] == KeyEvent(Up, 5, Some("left shift"))
    requires TapAt(events, 6, "space") && TapAt(events, 8, "left ctrl") && TapAt(events, 10, "a")
    ensures TypeAt(Typist(false, false, "", []), events, 0, true) == TypeAt(Typist(false, false, "a", ["AB "]), events, 12, true)
  {
    TypedShiftedAB(events);
    var t4 := Typist(false, false, "AB", []);
    TypeSpaceCtrlA(t4, events, 6, "a");
    assert t4.buffer + " " == "AB ";
    assert t4.done + ["AB "] == ["AB "];
    assert t4.(buffer := "a", done := t4.done + [t4.buffer + " "]) == Typist(false, false, "a", ["AB "]);
  }

  /** `d_shift + du_a + du_b + u_shift + du_space + du_ctrl + du_a` types
      `AB ` and then `a`. */
  lemma TypedStringsShift(events: seq<KeyEvent>)
    requires events == [
      KeyEvent(Down, 5, Some("left shift")),
      KeyEvent(Down, 1, Some("a")), KeyEvent(Up, 1, Some("a")),
      KeyEvent(Down, 2, Some("b")), KeyEvent(Up, 2, Some("b")),
      KeyEvent(Up, 5, Some("left shift")),
      KeyEvent(Down, 0, Some("space")), KeyEvent(Up, 0, Some("space")),
      KeyEvent(Down, 7, Some("left ctrl")), KeyEvent(Up, 7, Some("left ctrl")),
      KeyEvent(Down, 1, Some("a")), KeyEvent(Up, 1, Some("a"))]
    ensures GetTypedStrings(events, true) == Ok(["AB ", "a"])
  {
    ShiftChain(events);
    var t := Typist(false, false, "a", ["AB "]);
    TypedStringsAt(events, true, t);
    assert t.done + [t.buffer] == ["AB ", "a"];
  }

  /** The first half of the combined case: `du_a + du_b + du_backspace +
      d_shift + du_a + du_capslock`. */
  lemma AllChainFront(events: seq<KeyEvent>)
    requires |events| == 20 && TapAt(events, 0, "a") && TapAt(events, 2, "b") && TapAt(events, 4, "backspace")
    requires events[6] == KeyEvent(Down, 5, Some("left shift")) && TapAt(events, 7, "a") && TapAt(events, 9, "caps lock")
    ensures TypeAt(Typist(false, false, "", []), events, 0, true) == TypeAt(Typist(true, true, "aA", []), events, 11, true)
  {
    TypedABBackspace(events);
    TypedShiftedA(events);
    var t4 := Typist(true, false, "aA", []);
    TypeCapsLock(t4, events, 9);
    assert t4.(caps := !t4.caps) == Typist(true, true, "aA", []);
  }

  /** The second half of the combined case: `du_b + u_shift + du_space +
      du_ctrl + du_a` with caps lock on. */
  lemma AllChainBack(events: seq<KeyEvent>)
    requires |events| == 20 && TapAt(events, 11, "b") && events[13] == KeyEvent(Up, 5, Some("left shift"))
    requires TapAt(events, 14, "space") && TapAt(events, 16, "left ctrl") && TapAt(events, 18, "a")
    ensures TypeAt(Typist(true, true, "aA", []), events, 11, true) == TypeAt(Typist(false, true, "A", ["aAb "]), events, 20, true)
  {
    var t0 := Typist(true, true, "aA", []);
    CharRole("b", true);
    TapPrintable(t0, events, 11, true, "b", "b");
    var t1 := Typist(true, true, "aAb", []);
    assert t0.(buffer := t0.buffer + Shown(t0, "b")) == t1;
    TypeShift(t1, events, 13, Up);
    var t2 := Typist(false, true, "aAb", []);
    assert t1.(shift := Up == Down) == t2;
    TypeSpaceCtrlA(t2, events, 14, "A");
    assert t2.buffer + " " == "aAb ";
    assert t2.done + ["aAb "] == ["aAb "];
    assert t2.(buffer := "A", done := t2.done + [t2.buffer + " "]) == Typist(false, true, "A", ["aAb "]);
  }

  /** `du_a + du_b + du_backspace + d_shift + du_a + du_capslock + du_b +
      u_shift + du_space + du_ctrl + du_a` types `aAb ` and then `A`: caps
      lock cancels shift while both are on, and upper-cases alone after. */
  lemma TypedStringsAll(events: seq<KeyEvent>)
    requires events == [
      KeyEvent(Down, 1, Some("a")), KeyEvent(Up, 1, Some("a")),
      KeyEvent(Down, 2, Some("b")), KeyEvent(Up, 2, Some("b")),
      KeyEvent(Down, 8, Some("backspace")), KeyEvent(Up, 8, Some("backspace")),
      KeyEvent(Down, 5, Some("left shift")),
      KeyEvent(Down, 1, Some("a")), KeyEvent(Up, 1, Some("a")),
      KeyEvent(Down, 9, Some("caps lock")), KeyEvent(Up, 9, Some("caps lock")),
      KeyEvent(Down, 2, Some("b")), KeyEvent(Up, 2, Some("b")),
      KeyEvent(Up, 5, Some("left shift")),
      KeyEvent(Down, 0, Some("space")), KeyEvent(Up, 0, Some("space")),
      KeyEvent(Down, 7, Some("left ctrl")), KeyEvent(Up, 7, Some("left ctrl")),
      KeyEvent(Down, 1, Some("a")), KeyEvent(Up, 1, Some("a"))]
    ensures GetTypedStrings(events, true) == Ok(["aAb ", "A"])
  {
    AllChainFront(events);
    AllChainBack(events);
    var t := Typist(false, true, "A", ["aAb "]);
    TypedStringsAt(events, true, t);
    assert t.done + [t.buffer] == ["aAb ", "A"];
  }

  // ---------------------------------------------------------------------
  // The get_hotkey_name cases.

  lemma OneCharNormal(n: string)
    requires |n| == 1
    ensures NormalizeName(n) == Ok(n)
  {
    assert n == "_" || '_' !in n;
  }

  lemma WordNormal(n: string)
    requires n == "shift" || n == "ctrl" || n == "left ctrl" || n == "right alt"
    ensures NormalizeName(n) == Ok(n)
  {
    assert Lower(n) == n && '_' !in n && CanonicalName(n).None?;
  }

  lemma UpperShiftNormal(n: string)
    requires n == "SHIFT"
    ensures NormalizeName(n) == Ok("shift")
  {
    assert Lower(n) == "shift";
  }

  lemma UpperWinNormal(n: string)
    requires n == "WIN"
    ensures NormalizeName(n) == Ok("windows")
  {
    assert Lower(n) == "win";
  }

  lemma WordClean(n: string)
    requires n == "shift" || n == "ctrl" || n == "windows"
    ensures Clean(n) == n
  {
    assert forall i :: 0 <= i < |n| ==> 'a' <= n[i] <= 'z';
    CleanPlain(n);
  }

  lemma LeftCtrlClean(n: string)
    requires n == "left ctrl"
    ensures Clean(n) == "ctrl"
  {
    assert n == "left " + "ctrl";
    CleanSided("left ", "ctrl");
  }

  lemma RightAltClean(n: string)
    requires n == "right alt"
    ensures Clean(n) == "alt"
  {
    assert n == "right " + "alt";
    CleanSided("right ", "alt");
  }

  /** One character other than `+` and the blank is its own clean name. */
  lemma OneCharClean(n: string)
    requires |n| == 1 && n != "+" && n != " "
    ensures Clean(n) == n
  {
    assert n[0] != '+' && n[0] != ' ' && n == [n[0]];
    CleanPlain(n);
  }

  /** `get_hotkey_name(['a'])` is `a`. */
  lemma HotkeyNameSimple(a: string)
    requires a == "a"
    ensures GetHotkeyName([a]) == Ok(a)
  {
    OneCharNormal(a);
    NormalizeAllOk([a], [a]);
    OneCharClean(a);
    HotkeyNameOfCleaned([a], [a], [a]);
  }

  /** `get_hotkey_name(['a', 'shift', 'ctrl'])` is `ctrl+shift+a`: modifiers
      first, in their fixed order. */
  lemma HotkeyNameModifiers(a: string, shift: string, ctrl: string)
    requires a == "a" && shift == "shift" && ctrl == "ctrl"
    ensures GetHotkeyName([a, shift, ctrl]) == Ok(ctrl + "+" + shift + "+" + a)
  {
    var names := [a, shift, ctrl];
    assert NormalizeAll(names) == Ok(names) by {
      OneCharNormal(a);
      WordNormal(shift);
      WordNormal(ctrl);
      NormalizeAllOk(names, names);
    }
    assert CleanAll(names) == names by {
      OneCharClean(a);
      WordClean(shift);
      WordClean(ctrl);
    }
    var order := [ctrl, shift, a];
    assert Ordered(order) by {
      assert Before(ctrl, shift) && Before(shift, a) && Before(ctrl, a);
    }
    HotkeyNameOfCleaned(names, names, order);
    JoinPlusSmall(ctrl, shift, a, a, a);
  }

  /** `get_hotkey_name(['SHIFT', 'left ctrl'])` is `ctrl+shift`: names are
      normalised and sides dropped. */
  lemma HotkeyNameNormalize(upperShift: string, leftCtrl: string)
    requires upperShift == "SHIFT" && leftCtrl == "left ctrl"
    ensures GetHotkeyName([upperShift, leftCtrl]) == Ok("ctrl" + "+" + "shift")
  {
    UpperShiftNormal(upperShift);
    WordNormal(leftCtrl);
    var shift := "shift";
    var normal := [shift, leftCtrl];
    NormalizeAllOk([upperShift, leftCtrl], normal);
    WordClean(shift);
    LeftCtrlClean(leftCtrl);
    var ctrl := "ctrl";
    var order := [ctrl, shift];
    assert Before(ctrl, shift);
    HotkeyNameOfCleaned(normal, [shift, ctrl], order);
    JoinPlusSmall(ctrl, shift, shift, shift, shift);
  }

  /** `get_hotkey_name(['+'])` is `plus`, and so is `get_hotkey_name(['+',
      'plus'])`: both spellings are one key. */
  lemma HotkeyNamePlus(sign: string, word: string)
    requires sign == "+" && word == "plus"
    ensures GetHotkeyName([sign]) == Ok(word)
    ensures GetHotkeyName([sign, word]) == Ok(word)
  {
    OneCharNormal(sign);
    KeyCases.SpelledSeparatorShape(word, sign);
    NormalizeAllOk([sign], [sign]);
    NormalizeAllOk([sign, word], [sign, sign]);
    CleanPlusSign(sign);
    HotkeyNameOfCleaned([sign], [word], [word]);
    HotkeyNameOfCleaned([sign, sign], [word, word], [word]);
  }

  /** `get_hotkey_name(['+', 'left ctrl', 'shift', 'WIN', 'right alt'])` is
      `ctrl+alt+shift+windows+plus`. */
  lemma HotkeyNameFull(sign: string, leftCtrl: string, shift: string, win: string, rightAlt: string)
    requires sign == "+" && leftCtrl == "left ctrl" && shift == "shift" && win == "WIN" && rightAlt == "right alt"
    ensures GetHotkeyName([sign, leftCtrl, shift, win, rightAlt]) ==
            Ok("ctrl" + "+" + "alt" + "+" + shift + "+" + "windows" + "+" + "plus")
  {
    var windows := "windows";
    var normal := [sign, leftCtrl, shift, windows, rightAlt];
    FullNormalized(sign, leftCtrl, shift, win, rightAlt, windows);
    var ctrl, alt, plus := "ctrl", "alt", "plus";
    FullCleaned(sign, leftCtrl, shift, windows, rightAlt, plus, ctrl, alt);
    var order := [ctrl, alt, shift, windows, plus];
    OrderedFull(ctrl, alt, shift, windows, plus);
    HotkeyNameOfCleaned(normal, [plus, ctrl, shift, windows, alt], order);
    JoinPlusSmall(ctrl, alt, shift, windows, plus);
  }

  lemma FullNormalized(sign: string, leftCtrl: string, shift: string, win: string, rightAlt: string, windows: string)
    requires sign == "+" && leftCtrl == "left ctrl" && shift == "shift" && win == "WIN" && rightAlt == "right alt"
    requires windows == "windows"
    ensures NormalizeAll([sign, leftCtrl, shift, win, rightAlt]) == Ok([sign, leftCtrl, shift, windows, rightAlt])
  {
    OneCharNormal(sign);
    WordNormal(leftCtrl);
    WordNormal(shift);
    UpperWinNormal(win);
    WordNormal(rightAlt);
    NormalizeAllOk([sign, leftCtrl, shift, win, rightAlt], [sign, leftCtrl, shift, windows, rightAlt]);
  }

  lemma FullCleaned(sign: string, leftCtrl: string, shift: string, windows: string, rightAlt: string,
                    plus: string, ctrl: string, alt: string)
    requires sign == "+" && leftCtrl == "left ctrl" && shift == "shift" && windows == "windows" && rightAlt == "right alt"
    requires plus == "plus" && ctrl == "ctrl" && alt == "alt"
    ensures CleanAll([sign, leftCtrl, shift, windows, rightAlt]) == [plus, ctrl, shift, windows, alt]
  {
    CleanPlusSign(sign);
    LeftCtrlClean(leftCtrl);
    WordClean(shift);
    WordClean(windows);
    RightAltClean(rightAlt);
  }

  lemma OrderedFull(ctrl: string, alt: string, shift: string, windows: string, plus: string)
    requires ctrl == "ctrl" && alt == "alt" && shift == "shift" && windows == "windows" && plus == "plus"
    ensures Ordered([ctrl, alt, shift, windows, plus])
  {
    assert Rank(ctrl) == 0 && Rank(alt) == 1 && Rank(shift) == 2 && Rank(windows) == 3 && Rank(plus) == 5;
  }

  /** `get_hotkey_name(['ctrl', 'b', '!', 'a'])` is `ctrl+!+a+b`: the other
      names follow in character order. */
  lemma HotkeyNameMultiple(ctrl: string, b: string, bang: string, a: string)
    requires ctrl == "ctrl" && b == "b" && bang == "!" && a == "a"
    ensures GetHotkeyName([ctrl, b, bang, a]) == Ok(ctrl + "+" + bang + "+" + a + "+" + b)
  {
    var names := [ctrl, b, bang, a];
    WordNormal(ctrl);
    OneCharNormal(b);
    OneCharNormal(bang);
    OneCharNormal(a);
    NormalizeAllOk(names, names);
    WordClean(ctrl);
    OneCharClean(b);
    OneCharClean(bang);
    OneCharClean(a);
    assert CleanAll(names) == names;
    OrderedMultiple(ctrl, bang, a, b);
    HotkeyNameOfCleaned(names, names, [ctrl, bang, a, b]);
    JoinPlusSmall(ctrl, bang, a, b, b);
  }

  lemma OrderedMultiple(ctrl: string, bang: string, a: string, b: string)
    requires ctrl == "ctrl" && bang == "!" && a == "a" && b == "b"
    ensures Ordered([ctrl, bang, a, b])
  {
    assert Rank(ctrl) == 0 && Rank(bang) == 5 && Rank(a) == 5 && Rank(b) == 5;
    assert StrLess(bang, a) && StrLess(a, b) && StrLess(bang, b);
  }

  /** The names pressed in `test_get_hotkey_name_from_pressed`, in scan-code
      order, give `ctrl+a+b`. */
  lemma HotkeyNamePressed(a: string, b: string, leftCtrl: string)
    requires a == "a" && b == "b" && leftCtrl == "left ctrl"
    ensures GetHotkeyName([a, b, leftCtrl]) == Ok("ctrl" + "+" + a + "+" + b)
  {
    var names := [a, b, leftCtrl];
    OneCharNormal(a);
    OneCharNormal(b);
    WordNormal(leftCtrl);
    NormalizeAllOk(names, names);
    var ctrl := "ctrl";
    CleanedPressed(a, b, leftCtrl);
    OrderedPressed(ctrl, a, b);
    HotkeyNameOfCleaned(names, [a, b, ctrl], [ctrl, a, b]);
    JoinPlusSmall(ctrl, a, b, b, b);
  }

  lemma CleanedPressed(a: string, b: string, leftCtrl: string)
    requires a == "a" && b == "b" && leftCtrl == "left ctrl"
    ensures CleanAll([a, b, leftCtrl]) == [a, b, "ctrl"]
  {
    OneCharClean(a);
    OneCharClean(b);
    LeftCtrlClean(leftCtrl);
  }

  lemma OrderedPressed(ctrl: string, a: string, b: string)
    requires ctrl == "ctrl" && a == "a" && b == "b"
    ensures Ordered([ctrl, a, b]) && forall y :: y in [a, b, ctrl] <==> y in [ctrl, a, b]
  {
    assert Rank(ctrl) == 0 && Rank(a) == 5 && Rank(b) == 5;
    assert StrLess(a, b);
  }
}
