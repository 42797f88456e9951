/** The tests' key table name by name: what each table name, each modifier
    name and each spelling used by the tests resolves to. Each fact about a
    concrete name is a lemma of its own whose argument is that name. */
module KeyCases {
  import opened Events
  import opened Keys
  import opened KeyFacts

  // ---------------------------------------------------------------------
  // One lemma per table name: its shape, then what it resolves to.

  lemma SpaceShape(n: string)
    requires n == "space"
    ensures NormalPlain(n) && PlainKeyName(n) && EntryCodes(DummyKeys(n).value) == [0]
  {
  }

  lemma Space(n: string)
    requires n == "space"
    ensures ScanCodes(Name(n)) == Ok([0]) && LenientCodes(n) == [0] && TableCodes(n) == [0] && PlainKeyName(n)
  {
    SpaceShape(n);
    PlainTableName(n, [0]);
  }

  lemma LetterAShape(n: string)
    requires n == "a"
    ensures NormalPlain(n) && PlainKeyName(n) && EntryCodes(DummyKeys(n).value) == [1]
  {
  }

  lemma LetterA(n: string)
    requires n == "a"
    ensures ScanCodes(Name(n)) == Ok([1]) && LenientCodes(n) == [1] && TableCodes(n) == [1] && PlainKeyName(n)
  {
    LetterAShape(n);
    PlainTableName(n, [1]);
  }

  lemma LetterBShape(n: string)
    requires n == "b"
    ensures NormalPlain(n) && PlainKeyName(n) && EntryCodes(DummyKeys(n).value) == [2]
  {
  }

  lemma LetterB(n: string)
    requires n == "b"
    ensures ScanCodes(Name(n)) == Ok([2]) && LenientCodes(n) == [2] && TableCodes(n) == [2] && PlainKeyName(n)
  {
    LetterBShape(n);
    PlainTableName(n, [2]);
  }

  lemma LetterCShape(n: string)
    requires n == "c"
    ensures NormalPlain(n) && PlainKeyName(n) && EntryCodes(DummyKeys(n).value) == [3]
  {
  }

  lemma LetterC(n: string)
    requires n == "c"
    ensures ScanCodes(Name(n)) == Ok([3]) && LenientCodes(n) == [3] && TableCodes(n) == [3] && PlainKeyName(n)
  {
    LetterCShape(n);
    PlainTableName(n, [3]);
  }

  lemma UpperAShape(n: string)
    requires n == "A"
    ensures NormalPlain(n) && PlainKeyName(n) && EntryCodes(DummyKeys(n).value) == [1, -1]
  {
  }

  lemma UpperA(n: string)
    requires n == "A"
    ensures ScanCodes(Name(n)) == Ok([1, -1]) && LenientCodes(n) == [1, -1] && TableCodes(n) == [1, -1] && PlainKeyName(n)
  {
    UpperAShape(n);
    PlainTableName(n, [1, -1]);
  }

  lemma UpperBShape(n: string)
    requires n == "B"
    ensures NormalPlain(n) && PlainKeyName(n) && EntryCodes(DummyKeys(n).value) == [2, -2]
  {
  }

  lemma UpperB(n: string)
    requires n == "B"
    ensures ScanCodes(Name(n)) == Ok([2, -2]) && LenientCodes(n) == [2, -2] && TableCodes(n) == [2, -2] && PlainKeyName(n)
  {
    UpperBShape(n);
    PlainTableName(n, [2, -2]);
  }

  lemma UpperCShape(n: string)
    requires n == "C"
    ensures NormalPlain(n) && PlainKeyName(n) && EntryCodes(DummyKeys(n).value) == [3, -3]
  {
  }

  lemma UpperC(n: string)
    requires n == "C"
    ensures ScanCodes(Name(n)) == Ok([3, -3]) && LenientCodes(n) == [3, -3] && TableCodes(n) == [3, -3] && PlainKeyName(n)
  {
    UpperCShape(n);
    PlainTableName(n, [3, -3]);
  }

  lemma LeftAltShape(n: string)
    requires n == "left alt"
    ensures NormalPlain(n) && PlainKeyName(n) && EntryCodes(DummyKeys(n).value) == [4]
  {
  }

  lemma LeftAlt(n: string)
    requires n == "left alt"
    ensures ScanCodes(Name(n)) == Ok([4]) && LenientCodes(n) == [4] && TableCodes(n) == [4] && PlainKeyName(n)
  {
    LeftAltShape(n);
    PlainTableName(n, [4]);
  }

  lemma LeftShiftShape(n: string)
    requires n == "left shift"
    ensures NormalPlain(n) && PlainKeyName(n) && EntryCodes(DummyKeys(n).value) == [5]
  {
  }

  lemma LeftShift(n: string)
    requires n == "left shift"
    ensures ScanCodes(Name(n)) == Ok([5]) && LenientCodes(n) == [5] && TableCodes(n) == [5] && PlainKeyName(n)
  {
    LeftShiftShape(n);
    PlainTableName(n, [5]);
  }

  lemma RightShiftShape(n: string)
    requires n == "right shift"
    ensures NormalPlain(n) && PlainKeyName(n) && EntryCodes(DummyKeys(n).value) == [6]
  {
  }

  lemma RightShift(n: string)
    requires n == "right shift"
    ensures ScanCodes(Name(n)) == Ok([6]) && LenientCodes(n) == [6] && TableCodes(n) == [6] && PlainKeyName(n)
  {
    RightShiftShape(n);
    PlainTableName(n, [6]);
  }

  lemma LeftCtrlShape(n: string)
    requires n == "left ctrl"
    ensures NormalPlain(n) && PlainKeyName(n) && EntryCodes(DummyKeys(n).value) == [7]
  {
  }

  lemma LeftCtrl(n: string)
    requires n == "left ctrl"
    ensures ScanCodes(Name(n)) == Ok([7]) && LenientCodes(n) == [7] && TableCodes(n) == [7] && PlainKeyName(n)
  {
    LeftCtrlShape(n);
    PlainTableName(n, [7]);
  }

  lemma BackspaceShape(n: string)
    requires n == "backspace"
    ensures NormalPlain(n) && PlainKeyName(n) && EntryCodes(DummyKeys(n).value) == [8]
  {
  }

  lemma Backspace(n: string)
    requires n == "backspace"
    ensures ScanCodes(Name(n)) == Ok([8]) && LenientCodes(n) == [8] && TableCodes(n) == [8] && PlainKeyName(n)
  {
    BackspaceShape(n);
    PlainTableName(n, [8]);
  }

  lemma CapsLockShape(n: string)
    requires n == "caps lock"
    ensures NormalPlain(n) && PlainKeyName(n) && EntryCodes(DummyKeys(n).value) == [9]
  {
  }

  lemma CapsLock(n: string)
    requires n == "caps lock"
    ensures ScanCodes(Name(n)) == Ok([9]) && LenientCodes(n) == [9] && TableCodes(n) == [9] && PlainKeyName(n)
  {
    CapsLockShape(n);
    PlainTableName(n, [9]);
  }

  lemma PlusSignShape(n: string)
    requires n == "+"
    ensures NormalPlain(n) && EntryCodes(DummyKeys(n).value) == [10]
  {
  }

  lemma PlusSign(n: string)
    requires n == "+"
    ensures ScanCodes(Name(n)) == Ok([10]) && LenientCodes(n) == [10] && TableCodes(n) == [10]
  {
    PlusSignShape(n);
    PlainTableName(n, [10]);
  }

  lemma CommaSignShape(n: string)
    requires n == ","
    ensures NormalPlain(n) && EntryCodes(DummyKeys(n).value) == [11]
  {
  }

  lemma CommaSign(n: string)
    requires n == ","
    ensures ScanCodes(Name(n)) == Ok([11]) && LenientCodes(n) == [11] && TableCodes(n) == [11]
  {
    CommaSignShape(n);
    PlainTableName(n, [11]);
  }

  lemma UnderscoreShape(n: string)
    requires n == "_"
    ensures NormalPlain(n) && EntryCodes(DummyKeys(n).value) == [12]
  {
  }

  lemma Underscore(n: string)
    requires n == "_"
    ensures ScanCodes(Name(n)) == Ok([12]) && LenientCodes(n) == [12] && TableCodes(n) == [12]
  {
    UnderscoreShape(n);
    PlainTableName(n, [12]);
  }

  lemma RightAlt(n: string)
    requires n == "right alt"
    ensures ScanCodes(Name(n)) == Err(InvalidKey) && LenientCodes(n) == [] && TableCodes(n) == []
  {
    assert NormalPlain(n) && DummyKeys(n).None?;
    AbsentName(n);
  }

  lemma RightCtrl(n: string)
    requires n == "right ctrl"
    ensures ScanCodes(Name(n)) == Err(InvalidKey) && LenientCodes(n) == [] && TableCodes(n) == []
  {
    assert NormalPlain(n) && DummyKeys(n).None?;
    AbsentName(n);
  }

  lemma LeftWindows(n: string)
    requires n == "left windows"
    ensures ScanCodes(Name(n)) == Err(InvalidKey) && LenientCodes(n) == [] && TableCodes(n) == []
  {
    assert NormalPlain(n) && DummyKeys(n).None?;
    AbsentName(n);
  }

  lemma RightWindows(n: string)
    requires n == "right windows"
    ensures ScanCodes(Name(n)) == Err(InvalidKey) && LenientCodes(n) == [] && TableCodes(n) == []
  {
    assert NormalPlain(n) && DummyKeys(n).None?;
    AbsentName(n);
  }

  lemma AltGr(n: string)
    requires n == "alt gr"
    ensures ScanCodes(Name(n)) == Err(InvalidKey) && LenientCodes(n) == [] && TableCodes(n) == []
  {
    assert NormalPlain(n) && DummyKeys(n).None?;
    AbsentName(n);
  }
  // ---------------------------------------------------------------------
  // The four families whose bare name stands for both sides.

  predicate FamilyShape(n: string)
  {
    IsSided(n) && CanonicalName(n).None? && Lower(n) == n && '_' !in n && PlainKeyName(n)
  }

  lemma AltShape(n: string)
    requires n == "alt"
    ensures FamilyShape(n) && "left " + n == "left alt" && "right " + n == "right alt"
  {
  }

  /** `alt` resolves through its sides, not through its own table entry. */
  lemma Alt(n: string)
    requires n == "alt"
    ensures ScanCodes(Name(n)) == Ok([4]) && LenientCodes(n) == [4]
  {
    AltShape(n);
    LeftAlt("left alt");
    RightAlt("right alt");
    SidedName(n, [4], []);
  }

  lemma CtrlShape(n: string)
    requires n == "ctrl"
    ensures FamilyShape(n) && "left " + n == "left ctrl" && "right " + n == "right ctrl"
  {
  }

  lemma Ctrl(n: string)
    requires n == "ctrl"
    ensures ScanCodes(Name(n)) == Ok([7]) && LenientCodes(n) == [7]
  {
    CtrlShape(n);
    LeftCtrl("left ctrl");
    RightCtrl("right ctrl");
    SidedName(n, [7], []);
  }

  lemma ShiftShape(n: string)
    requires n == "shift"
    ensures FamilyShape(n) && "left " + n == "left shift" && "right " + n == "right shift"
  {
  }

  lemma Shift(n: string)
    requires n == "shift"
    ensures ScanCodes(Name(n)) == Ok([5, 6]) && LenientCodes(n) == [5, 6]
  {
    ShiftShape(n);
    ShiftSides();
    WithoutDisjoint([6], [5]);
    SidedName(n, [5], [6]);
    assert [5] + [6] == [5, 6];
  }

  lemma ShiftSides()
    ensures TableCodes("left shift") == [5] && TableCodes("right shift") == [6]
  {
    LeftShift("left shift");
    RightShift("right shift");
  }

  lemma WindowsShape(n: string)
    requires n == "windows"
    ensures FamilyShape(n) && "left " + n == "left windows" && "right " + n == "right windows"
  {
  }

  lemma Windows(n: string)
    requires n == "windows"
    ensures ScanCodes(Name(n)) == Ok([]) && LenientCodes(n) == []
  {
    WindowsShape(n);
    LeftWindows("left windows");
    RightWindows("right windows");
    SidedName(n, [], []);
  }

  // ---------------------------------------------------------------------
  // key_to_scan_codes on the tests' inputs.

  lemma TableNamesResolve0(n: string)
    requires n == "space" || n == "a" || n == "b" || n == "c"
    ensures ScanCodes(Name(n)) == Ok(EntryCodes(DummyKeys(n).value))
  {
    if n == "space" { Space(n); SpaceShape(n); }
    else if n == "a" { LetterA(n); LetterAShape(n); }
    else if n == "b" { LetterB(n); LetterBShape(n); }
    else { LetterC(n); LetterCShape(n); }
  }

  lemma TableNamesResolve1(n: string)
    requires n == "A" || n == "B" || n == "C" || n == "alt"
    ensures ScanCodes(Name(n)) == Ok(EntryCodes(DummyKeys(n).value))
  {
    if n == "A" { UpperA(n); UpperAShape(n); }
    else if n == "B" { UpperB(n); UpperBShape(n); }
    else if n == "C" { UpperC(n); UpperCShape(n); }
    else { Alt(n); assert EntryCodes(DummyKeys(n).value) == [4]; }
  }

  lemma TableNamesResolve2(n: string)
    requires n == "left alt" || n == "left shift" || n == "right shift" || n == "left ctrl"
    ensures ScanCodes(Name(n)) == Ok(EntryCodes(DummyKeys(n).value))
  {
    if n == "left alt" { LeftAlt(n); LeftAltShape(n); }
    else if n == "left shift" { LeftShift(n); LeftShiftShape(n); }
    else if n == "right shift" { RightShift(n); RightShiftShape(n); }
    else { LeftCtrl(n); LeftCtrlShape(n); }
  }

  lemma TableNamesResolve3(n: string)
    requires n == "backspace" || n == "caps lock" || n == "+" || n == "," || n == "_"
    ensures ScanCodes(Name(n)) == Ok(EntryCodes(DummyKeys(n).value))
  {
    if n == "backspace" { Backspace(n); BackspaceShape(n); }
    else if n == "caps lock" { CapsLock(n); CapsLockShape(n); }
    else if n == "+" { PlusSign(n); PlusSignShape(n); }
    else if n == "," { CommaSign(n); CommaSignShape(n); }
    else { Underscore(n); UnderscoreShape(n); }
  }

  /** Every name of the table resolves to the codes of its entries, in order. */
  lemma TableNamesResolve(n: string)
    requires DummyKeys(n).Some?
    ensures ScanCodes(Name(n)) == Ok(EntryCodes(DummyKeys(n).value))
  {
    if n == "space" || n == "a" || n == "b" || n == "c" {
      TableNamesResolve0(n);
    } else if n == "A" || n == "B" || n == "C" || n == "alt" {
      TableNamesResolve1(n);
    } else if n == "left alt" || n == "left shift" || n == "right shift" || n == "left ctrl" {
      TableNamesResolve2(n);
    } else {
      TableNamesResolve3(n);
    }
  }

  /** Case does not matter in a name of more than one character. */
  lemma UpperShift(n: string)
    requires n == "SHIFT"
    ensures ScanCodes(Name(n)) == Ok([5, 6])
  {
    ResolutionIgnoresCaseAndUnderscore(n);
    UpperShiftShape(n);
    Shift("shift");
  }

  lemma UpperShiftShape(n: string)
    requires n == "SHIFT"
    ensures ReplaceChar(n, '_', ' ') == n && Lower(n) == "shift"
  {
  }

  /** `CONTROL` is a synonym of `ctrl`. */
  lemma UpperControl(n: string)
    requires n == "CONTROL"
    ensures ScanCodes(Name(n)) == ScanCodes(Name("ctrl")) == Ok([7])
  {
    var k := "control";
    assert Lower(n) == k && '_' !in k && CanonicalName(k) == Some("ctrl");
    assert NormalizeName(n) == Ok("ctrl");
    Ctrl("ctrl");
    ResolutionOfNormalForm(n);
  }

  lemma UnderscoredRightShiftShape(n: string)
    requires n == "right_shift"
    ensures Lower(n) == n && '_' in n && ReplaceChar(n, '_', ' ') == "right shift"
  {
  }

  /** `_` inside a longer name stands for a blank. */
  lemma UnderscoredRightShift(n: string)
    requires n == "right_shift"
    ensures ScanCodes(Name(n)) == Ok([6])
  {
    UnderscoredRightShiftShape(n);
    RightShift("right shift");
    RightShiftShape("right shift");
    assert NormalizeName(n) == Ok("right shift");
    ResolutionOfNormalForm(n);
  }

  /** `None`, the empty name, a value of another type and an unknown name
      are all errors. */
  lemma InvalidKeys(n: string)
    requires n == "invalid"
    ensures ScanCodes(NoKey) == Err(InvalidKey)
    ensures ScanCodes(Name("")) == Err(InvalidKey)
    ensures ScanCodes(OtherKey) == Err(InvalidKey)
    ensures ScanCodes(Name(n)) == Err(InvalidKey)
  {
    assert NormalPlain(n) && DummyKeys(n).None?;
    AbsentName(n);
  }

  /** A list resolves item by item, scan codes standing for themselves. */
  lemma ListResolves(a: string)
    requires a == "a"
    ensures ScanCodes(Keys([Code(10), Code(5), Name(a)])) == Ok([10, 5, 1])
  {
    var items := [Code(10), Code(5), Name(a)];
    LetterA(a);
    assert ListCodes(items, 3) == Ok([]);
    assert ListCodes(items, 2) == Ok([1]);
    assert items[1] == Code(5) && KeyToScanCodes(items[1], true) == Ok([5]);
    assert [5] + [1] == [5, 1];
    assert ListCodes(items, 1) == Ok([5, 1]);
    assert items[0] == Code(10) && KeyToScanCodes(items[0], true) == Ok([10]);
    assert [10] + [5, 1] == [10, 5, 1];
    assert ListCodes(items, 0) == Ok([10, 5, 1]);
  }

  // ---------------------------------------------------------------------
  // is_modifier.

  /** Every modifier name is a modifier. */
  lemma ModifierNamesAreModifiers(n: string)
    requires n in AllModifiers
    ensures IsModifierName(n)
  {
  }

  lemma LeftModifiersWithin(n: string)
    requires n == "left ctrl" || n == "left alt" || n == "left shift" || n == "left windows"
    ensures forall c :: c in LenientCodes(n) ==> 4 <= c <= 7
  {
    if n == "left ctrl" { LeftCtrl(n); }
    else if n == "left alt" { LeftAlt(n); }
    else if n == "left shift" { LeftShift(n); }
    else { LeftWindows(n); }
  }

  lemma RightModifiersWithin(n: string)
    requires n == "alt gr" || n == "right ctrl" || n == "right alt" || n == "right shift" || n == "right windows"
    ensures forall c :: c in LenientCodes(n) ==> 4 <= c <= 7
  {
    if n == "alt gr" { AltGr(n); }
    else if n == "right ctrl" { RightCtrl(n); }
    else if n == "right alt" { RightAlt(n); }
    else if n == "right shift" { RightShift(n); }
    else { RightWindows(n); }
  }

  lemma FamiliesWithin(n: string)
    requires n == "alt" || n == "ctrl" || n == "shift" || n == "windows"
    ensures forall c :: c in LenientCodes(n) ==> 4 <= c <= 7
  {
    if n == "alt" { Alt(n); }
    else if n == "ctrl" { Ctrl(n); }
    else if n == "shift" { Shift(n); }
    else { Windows(n); }
  }

  /** Every code a modifier name resolves to lies in 4..7. */
  lemma ModifierCodesBounded()
    ensures forall c :: c in ModifierCodes() ==> 4 <= c <= 7
  {
    forall n | n in AllModifiers ensures forall c :: c in LenientCodes(n) ==> 4 <= c <= 7 {
      if n == "alt" || n == "ctrl" || n == "shift" || n == "windows" {
        FamiliesWithin(n);
      } else if n == "left ctrl" || n == "left alt" || n == "left shift" || n == "left windows" {
        LeftModifiersWithin(n);
      } else {
        RightModifiersWithin(n);
      }
    }
    CodesOfNamesWithin(AllModifiers, 4, 7);
  }

  /** Each of 4..7 is the code of some modifier name. */
  lemma ModifierCodesContain()
    ensures {4, 5, 6, 7} <= ModifierCodes()
  {
    LeftAlt("left alt");
    LeftShift("left shift");
    RightShift("right shift");
    LeftCtrl("left ctrl");
    assert 4 in ModifierCodes() by { assert 4 in LenientCodes("left alt"); }
    assert 5 in ModifierCodes() by { assert 5 in LenientCodes("left shift"); }
    assert 6 in ModifierCodes() by { assert 6 in LenientCodes("right shift"); }
    assert 7 in ModifierCodes() by { assert 7 in LenientCodes("left ctrl"); }
  }

  /** `is_modifier` of a scan code holds exactly for 4, 5, 6 and 7: the codes
      of left and right alt, shift and ctrl in the tests' table. */
  lemma IsModifierCodeExactly(i: int)
    ensures IsModifierCode(i) <==> 4 <= i <= 7
  {
    var m := ModifierCodes();
    ModifierCodesBounded();
    ModifierCodesContain();
    assert i in m ==> 4 <= i <= 7;
    assert 4 <= i <= 7 ==> i in {4, 5, 6, 7};
  }

  // ---------------------------------------------------------------------
  // parse_hotkey on the tests' inputs.

  lemma ParseSimple(a: string, upper: string)
    requires a == "a" && upper == "A"
    ensures ParseHotkey(Name(a)) == Ok([[[1]]])
    ensures ParseHotkey(Name(upper)) == Ok([[[1, -1]]])
  {
    LetterA(a);
    UpperA(upper);
    ParseOneChar(a, [1]);
    ParseOneChar(upper, [1, -1]);
  }

  /** `plus` and `comma` spell the separators themselves. */
  lemma ParseSeparatorNames(plus: string, comma: string)
    requires plus == "plus" && comma == "comma"
    ensures ParseHotkey(Name("+")) == ParseHotkey(Name(plus)) == Ok([[[10]]])
    ensures ParseHotkey(Name(",")) == ParseHotkey(Name(comma)) == Ok([[[11]]])
  {
    PlusSign("+");
    CommaSign(",");
    ParseOneChar("+", [10]);
    ParseOneChar(",", [11]);
    SpelledSeparator(plus, "+", [10]);
    SpelledSeparator(comma, ",", [11]);
  }

  lemma SpelledSeparatorShape(name: string, sep: string)
    requires (name == "plus" && sep == "+") || (name == "comma" && sep == ",")
    ensures NormalizeName(name) == Ok(sep) && |name| > 1 && '+' !in name && ',' !in name
  {
    assert Lower(name) == name && '_' !in name && CanonicalName(name) == Some(sep);
  }

  lemma SpelledSeparator(name: string, sep: string, codes: seq<int>)
    requires (name == "plus" && sep == "+") || (name == "comma" && sep == ",")
    requires ScanCodes(Name(sep)) == Ok(codes)
    ensures ParseHotkey(Name(name)) == Ok([[codes]])
  {
    SpelledSeparatorShape(name, sep);
    ResolutionOfNormalForm(name);
    IndexOfIs(name, '+', |name|);
    StepCodesOfTwo(name, name, codes, codes);
    ParseOneStep(name, [codes]);
  }

  /** `left shift + a` and `left shift+a` name the same two-key step. */
  lemma ParseKeys(l: string, a: string)
    requires l == "left shift" && a == "a"
    ensures ParseHotkey(Name(l + " + " + a)) == Ok([[[5], [1]]])
    ensures ParseHotkey(Name(l + "+" + a)) == Ok([[[5], [1]]])
  {
    LeftShift(l);
    LetterA(a);
    ParseTwoKeys(l, a, [5], [1]);
  }

  /** Steps are separated by `,` with or without a blank after it. */
  lemma ParseSteps(a: string, b: string)
    requires a == "a" && b == "b"
    ensures ParseHotkey(Name(a + "," + b)) == Ok([[[1]], [[2]]])
    ensures ParseHotkey(Name(a + ", " + b)) == Ok([[[1]], [[2]]])
  {
    LetterA(a);
    LetterB(b);
    IndexOfIs(a, '+', 1);
    IndexOfIs(b, '+', 1);
    StepCodesOfTwo(a, b, [1], [2]);
    StepCodesOfTwo(b, a, [2], [1]);
    ParseTwoPlainSteps(a, ",", b, [[1]], [[2]]);
    ParseTwoPlainSteps(a, ", ", b, [[1]], [[2]]);
  }

  /** `a+b, b+c`: two steps of two keys each. */
  lemma ParseStepsOfPairs(a: string, b: string, c: string)
    requires a == "a" && b == "b" && c == "c"
    ensures ParseHotkey(Name((a + "+" + b) + ", " + (b + "+" + c))) == Ok([[[1], [2]], [[2], [3]]])
  {
    LetterA(a);
    LetterB(b);
    LetterC(c);
    PairStep(a, b, [1], [2]);
    PairStep(b, c, [2], [3]);
    ParseTwoPlainSteps(a + "+" + b, ", ", b + "+" + c, [[1], [2]], [[2], [3]]);
  }

  // ---------------------------------------------------------------------
  // The hotkeys the sending, remapping and hotkey tests use.

  lemma ModifierFamiliesPlain(ctrl: string, shift: string)
    requires ctrl == "ctrl" && shift == "shift"
    ensures PlainKeyName(ctrl) && PlainKeyName(shift)
    ensures ScanCodes(Name(ctrl)) == Ok([7]) && ScanCodes(Name(shift)) == Ok([5, 6])
  {
    CtrlShape(ctrl);
    ShiftShape(shift);
    Ctrl(ctrl);
    Shift(shift);
  }

  /** `ctrl+a`: one step of two keys. */
  lemma ParseCtrlA(ctrl: string, a: string)
    requires ctrl == "ctrl" && a == "a"
    ensures ParseHotkey(Name(ctrl + "+" + a)) == Ok([[[7], [1]]])
  {
    ModifierFamiliesPlain(ctrl, "shift");
    LetterA(a);
    ParseTwoKeys(ctrl, a, [7], [1]);
  }

  /** `shift+a` and `shift+b`: the shift key has both sides' codes. */
  lemma ParseShiftLetter(shift: string, letter: string, code: int)
    requires shift == "shift" && ((letter == "a" && code == 1) || (letter == "b" && code == 2))
    ensures ParseHotkey(Name(shift + "+" + letter)) == Ok([[[5, 6], [code]]])
  {
    ModifierFamiliesPlain("ctrl", shift);
    if letter == "a" { LetterA(letter); } else { LetterB(letter); }
    ParseTwoKeys(shift, letter, [5, 6], [code]);
  }

  /** `a+b`: two plain letters in one step. */
  lemma ParseAPlusB(a: string, b: string)
    requires a == "a" && b == "b"
    ensures ParseHotkey(Name(a + "+" + b)) == Ok([[[1], [2]]])
  {
    LetterA(a);
    LetterB(b);
    ParseTwoKeys(a, b, [1], [2]);
  }

  /** `ctrl+shift+a`: one step of three keys, the middle one with two codes. */
  lemma ParseCtrlShiftA(ctrl: string, shift: string, a: string)
    requires ctrl == "ctrl" && shift == "shift" && a == "a"
    ensures ParseHotkey(Name(ctrl + "+" + shift + "+" + a)) == Ok([[[7], [5, 6], [1]]])
  {
    ModifierFamiliesPlain(ctrl, shift);
    LetterA(a);
    ParseThreeKeys(ctrl, shift, a, [7], [5, 6], [1]);
  }

  /** `b` alone. */
  lemma ParseLetterB(b: string)
    requires b == "b"
    ensures ParseHotkey(Name(b)) == Ok([[[2]]])
  {
    LetterB(b);
    ParseOneChar(b, [2]);
  }

  /** `shift` alone, as `write` presses it around a shifted letter. */
  lemma ParseShift(shift: string)
    requires shift == "shift"
    ensures ParseHotkey(Name(shift)) == Ok([[[5, 6]]])
  {
    ModifierFamiliesPlain("ctrl", shift);
    StepCodesOfTwo(shift, shift, [5, 6], [5, 6]);
    SplitKeysJoin([shift]);
    assert Join([shift], "+") == shift;
    ParseOneStep(shift, [[5, 6]]);
  }
}
